/**
 * The guided analytics menu: the numbered options an inspection report supports, and the
 * mapping from a chosen option text back to an analytics intent.
 */
module GuidedAnalytics {
  import opened Basics
  import opened Text
  import opened DataInspector

  const SummaryOption: string := "View summary"
  const TrendOption: string := "Analyze revenue trend over time"

  /** The dimensions offered for comparison and for ranking, each in its own order. */
  const CompareDims: seq<string> := ["region", "salesperson", "product"]
  const RankDims: seq<string> := ["salesperson", "product", "region"]

  /** The dimensions `map_choice_to_intent` looks for, in the order it tries them. */
  const ChoiceDims: seq<string> := ["region", "salesperson", "product"]

  /** The option prefixes, written as their words and the space before the dimension. */
  const CompareHead: string := "Compare revenue by"
  const RankHead: string := "Rank top performers by"
  const ComparePrefix: string := CompareHead + " "
  const RankPrefix: string := RankHead + " "

  /** The option text `f"{prefix}{dim}"`. */
  function CompareOption(dim: string): string
  {
    ComparePrefix + dim
  }

  function RankOption(dim: string): string
  {
    RankPrefix + dim
  }

  /** `inspection_report.get("shape", {}).get("rows", 0)`. */
  function ReportRows(report: InspectionReport): nat
  {
    match report.shape
    case Some(s) => s.rows
    case None => 0
  }

  /** The keys of `inspection_report.get("missing_values", {})`. */
  function MissingKeys(report: InspectionReport): seq<string>
  {
    match report.missingValues
    case Some(entries) => seq(|entries|, k requires 0 <= k < |entries| => entries[k].column)
    case None => []
  }

  /** The options `prefix + dim` for the dimensions of `dims` that are keys, in the order of `dims`. */
  function DimOptions(prefix: string, dims: seq<string>, keys: seq<string>): seq<string>
    decreases |dims|
  {
    if dims == [] then []
    else DimOptions(prefix, dims[..|dims| - 1], keys) + (if dims[|dims| - 1] in keys then [prefix + dims[|dims| - 1]] else [])
  }

  /** The texts of the options `available_analyses` offers, in the order it appends them. */
  function OptionTexts(report: InspectionReport): seq<string>
  {
    var keys := MissingKeys(report);
    (if ReportRows(report) > 0 then [SummaryOption] else [])
      + (if "order_date" in keys then [TrendOption] else [])
      + DimOptions(ComparePrefix, CompareDims, keys)
      + DimOptions(RankPrefix, RankDims, keys)
  }

  /** The options numbered 1, 2, ... in list order. */
  function Numbered(texts: seq<string>): seq<(nat, string)>
  {
    seq(|texts|, k requires 0 <= k < |texts| => (k + 1, texts[k]))
  }

  lemma NumberedSnoc(texts: seq<string>, x: string)
    ensures Numbered(texts + [x]) == Numbered(texts) + [(|texts| + 1, x)]
  {
  }

  /** `available_analyses`: the options numbered by a counter starting at 1. */
  method AvailableAnalyses(report: InspectionReport) returns (options: seq<(nat, string)>)
    ensures options == Numbered(OptionTexts(report))
  {
    var keys := MissingKeys(report);
    options := [];
    var optionId := 1;
    ghost var texts: seq<string> := [];

    if ReportRows(report) > 0 {
      NumberedSnoc(texts, SummaryOption);
      options := options + [(optionId, SummaryOption)];
      texts := texts + [SummaryOption];
      optionId := optionId + 1;
    }
    if "order_date" in keys {
      NumberedSnoc(texts, TrendOption);
      options := options + [(optionId, TrendOption)];
      texts := texts + [TrendOption];
      optionId := optionId + 1;
    }
    options, optionId := AppendDimOptions(options, optionId, texts, ComparePrefix, CompareDims, keys);
    texts := texts + DimOptions(ComparePrefix, CompareDims, keys);
    options, optionId := AppendDimOptions(options, optionId, texts, RankPrefix, RankDims, keys);
  }

  /** One `for dim in [...]` loop of `available_analyses`, appending an option per dimension that is a key. */
  method AppendDimOptions(options: seq<(nat, string)>, optionId: nat, ghost texts: seq<string>,
                          prefix: string, dims: seq<string>, keys: seq<string>)
    returns (newOptions: seq<(nat, string)>, newOptionId: nat)
    requires options == Numbered(texts) && optionId == |texts| + 1
    ensures newOptions == Numbered(texts + DimOptions(prefix, dims, keys))
    ensures newOptionId == |newOptions| + 1
  {
    newOptions, newOptionId := options, optionId;
    ghost var added: seq<string> := [];
    for i := 0 to |dims|
      invariant added == DimOptions(prefix, dims[..i], keys)
      invariant newOptions == Numbered(texts + added) && newOptionId == |texts + added| + 1
    {
      var dim := dims[i];
      assert dims[..i + 1][..i] == dims[..i];
      if dim in keys {
        NumberedSnoc(texts + added, prefix + dim);
        assert texts + added + [prefix + dim] == texts + (added + [prefix + dim]);
        newOptions := newOptions + [(newOptionId, prefix + dim)];
        added := added + [prefix + dim];
        newOptionId := newOptionId + 1;
      }
    }
    assert dims[..|dims|] == dims;
  }

  /** The option ids run 1, 2, ..., n over the option texts in order. */
  lemma OptionIds(report: InspectionReport)
    ensures |Numbered(OptionTexts(report))| == |OptionTexts(report)|
    ensures forall k :: 0 <= k < |OptionTexts(report)| ==>
      Numbered(OptionTexts(report))[k].0 == k + 1 && Numbered(OptionTexts(report))[k].1 == OptionTexts(report)[k]
  {
  }

  /** The dictionary `map_choice_to_intent` returns: the intent and, for compare and rank, the dimension. */
  datatype Choice = Choice(intent: string, dimension: Option<string>)

  /** The first dimension of `dims` the text contains. */
  function FirstDimIn(text: string, dims: seq<string>): (r: Option<string>)
    ensures r.Some? ==> r.value in dims && Contains(text, r.value)
    ensures r.None? <==> forall k :: 0 <= k < |dims| ==> !Contains(text, dims[k])
  {
    if dims == [] then None
    else if Contains(text, dims[0]) then Some(dims[0])
    else
      assert forall k :: 0 < k < |dims| ==> dims[1..][k - 1] == dims[k];
      FirstDimIn(text, dims[1..])
  }

  /** `map_choice_to_intent`; `ValueError` becomes `Err` with its message. */
  function MapChoiceToIntent(choiceText: string): (r: Result<Choice, string>)
    ensures r.Ok? ==> r.value.intent in ["SUMMARY", "TREND", "COMPARE", "RANK"]
    ensures r.Ok? ==> (r.value.dimension.Some? <==> r.value.intent == "COMPARE" || r.value.intent == "RANK")
    ensures r.Ok? && r.value.dimension.Some? ==>
      r.value.dimension.value in ChoiceDims && Contains(Lower(choiceText), r.value.dimension.value)
    ensures r.Err? ==> r.error == "Unsupported guided analytics choice"
  {
    var text := Lower(choiceText);
    if Contains(text, "summary") then Ok(Choice("SUMMARY", None))
    else if Contains(text, "trend") then Ok(Choice("TREND", None))
    else if Contains(text, "compare") && FirstDimIn(text, ChoiceDims).Some? then
      Ok(Choice("COMPARE", FirstDimIn(text, ChoiceDims)))
    else if Contains(text, "rank") && FirstDimIn(text, ChoiceDims).Some? then
      Ok(Choice("RANK", FirstDimIn(text, ChoiceDims)))
    else Err("Unsupported guided analytics choice")
  }

  /** The mapping ignores case. */
  lemma MapIgnoresCase(choiceText: string)
    ensures MapChoiceToIntent(Lower(choiceText)) == MapChoiceToIntent(choiceText)
  {
    LowerIdempotent(choiceText);
  }

  /**
   * Summary wins over trend, trend over compare and compare over rank; compare and rank carry the
   * first known dimension the text names, and a text matching none of the rules is refused.
   */
  lemma MapPrecedence(choiceText: string)
    ensures var text := Lower(choiceText);
      MapChoiceToIntent(choiceText) == Ok(Choice("SUMMARY", None)) <==> Contains(text, "summary")
    ensures var text := Lower(choiceText);
      MapChoiceToIntent(choiceText) == Ok(Choice("TREND", None)) <==> !Contains(text, "summary") && Contains(text, "trend")
    ensures var text := Lower(choiceText);
      MapChoiceToIntent(choiceText).Ok? && MapChoiceToIntent(choiceText).value.intent == "COMPARE" <==>
        !Contains(text, "summary") && !Contains(text, "trend") && Contains(text, "compare") && FirstDimIn(text, ChoiceDims).Some?
    ensures var text := Lower(choiceText);
      MapChoiceToIntent(choiceText).Ok? && MapChoiceToIntent(choiceText).value.intent == "RANK" <==>
        !Contains(text, "summary") && !Contains(text, "trend") && !(Contains(text, "compare") && FirstDimIn(text, ChoiceDims).Some?)
        && Contains(text, "rank") && FirstDimIn(text, ChoiceDims).Some?
    ensures MapChoiceToIntent(choiceText).Ok? && MapChoiceToIntent(choiceText).value.dimension.Some? ==>
      var d := MapChoiceToIntent(choiceText).value.dimension.value;
      d in ChoiceDims && Contains(Lower(choiceText), d)
    ensures MapChoiceToIntent(choiceText).Err? ==> MapChoiceToIntent(choiceText).error == "Unsupported guided analytics choice"
  {
  }

  /** An option offered for a dimension list is `prefix + dim` for a listed dimension that is a key. */
  lemma {:induction false} DimOptionsMembers(prefix: string, dims: seq<string>, keys: seq<string>, t: string)
    ensures t in DimOptions(prefix, dims, keys) <==> exists d :: d in dims && d in keys && t == prefix + d
    ensures |DimOptions(prefix, dims, keys)| <= |dims|
    decreases |dims|
  {
    if dims != [] {
      var init, last := dims[..|dims| - 1], dims[|dims| - 1];
      DimOptionsMembers(prefix, init, keys, t);
      assert dims == init + [last];
      if exists d :: d in dims && d in keys && t == prefix + d {
        var d :| d in dims && d in keys && t == prefix + d;
        if d != last {
          assert d in init;
        }
      }
    }
  }

  /** Appending a dimension to a prefix can be undone. */
  lemma PrefixInjective(prefix: string, d: string, e: string)
    ensures prefix + d == prefix + e ==> d == e
  {
    if prefix + d == prefix + e {
      assert d == (prefix + d)[|prefix|..];
    }
  }

  /** Every option offered for a dimension list starts with the first character of its prefix. */
  lemma DimOptionHead(prefix: string, dims: seq<string>, keys: seq<string>, t: string)
    requires |prefix| > 0 && t in DimOptions(prefix, dims, keys)
    ensures |t| > 0 && t[0] == prefix[0]
  {
    DimOptionsMembers(prefix, dims, keys, t);
    var e :| e in dims && e in keys && t == prefix + e;
  }

  /** The menu is the fixed options followed by the compare and then the rank options. */
  lemma OptionParts(report: InspectionReport)
    ensures var keys := MissingKeys(report);
      OptionTexts(report) == ((if ReportRows(report) > 0 then [SummaryOption] else []) + (if "order_date" in keys then [TrendOption] else []))
        + DimOptions(ComparePrefix, CompareDims, keys) + DimOptions(RankPrefix, RankDims, keys)
  {
  }

  /** "View summary" is offered exactly when the report has rows, and is then the first option. */
  lemma OfferedSummary(report: InspectionReport)
    ensures SummaryOption in OptionTexts(report) <==> ReportRows(report) > 0
    ensures ReportRows(report) > 0 ==> OptionTexts(report)[0] == SummaryOption
  {
    var keys := MissingKeys(report);
    OptionParts(report);
    if SummaryOption in DimOptions(ComparePrefix, CompareDims, keys) {
      DimOptionHead(ComparePrefix, CompareDims, keys, SummaryOption);
      assert false;
    }
    if SummaryOption in DimOptions(RankPrefix, RankDims, keys) {
      DimOptionHead(RankPrefix, RankDims, keys, SummaryOption);
      assert false;
    }
  }

  /** The trend option is offered exactly when "order_date" is a key of the missing-values report. */
  lemma OfferedTrend(report: InspectionReport)
    ensures TrendOption in OptionTexts(report) <==> "order_date" in MissingKeys(report)
  {
    var keys := MissingKeys(report);
    OptionParts(report);
    if TrendOption in DimOptions(ComparePrefix, CompareDims, keys) {
      DimOptionHead(ComparePrefix, CompareDims, keys, TrendOption);
      assert false;
    }
    if TrendOption in DimOptions(RankPrefix, RankDims, keys) {
      DimOptionHead(RankPrefix, RankDims, keys, TrendOption);
      assert false;
    }
  }

  /** A compare option is offered exactly when its dimension is one of the three and a key. */
  lemma OfferedCompare(report: InspectionReport, d: string)
    ensures CompareOption(d) in OptionTexts(report) <==> d in CompareDims && d in MissingKeys(report)
  {
    var keys := MissingKeys(report);
    var t := CompareOption(d);
    OptionParts(report);
    assert t[0] == 'C';
    DimOptionsMembers(ComparePrefix, CompareDims, keys, t);
    if t in DimOptions(RankPrefix, RankDims, keys) {
      DimOptionHead(RankPrefix, RankDims, keys, t);
      assert false;
    }
    if t in DimOptions(ComparePrefix, CompareDims, keys) {
      var e :| e in CompareDims && e in keys && t == ComparePrefix + e;
      PrefixInjective(ComparePrefix, d, e);
    }
  }

  /** A rank option is offered exactly when its dimension is one of the three and a key. */
  lemma OfferedRank(report: InspectionReport, d: string)
    ensures RankOption(d) in OptionTexts(report) <==> d in RankDims && d in MissingKeys(report)
  {
    var keys := MissingKeys(report);
    var t := RankOption(d);
    OptionParts(report);
    assert t[0] == 'R';
    DimOptionsMembers(RankPrefix, RankDims, keys, t);
    if t in DimOptions(ComparePrefix, CompareDims, keys) {
      DimOptionHead(ComparePrefix, CompareDims, keys, t);
      assert false;
    }
    if t in DimOptions(RankPrefix, RankDims, keys) {
      var e :| e in RankDims && e in keys && t == RankPrefix + e;
      PrefixInjective(RankPrefix, d, e);
    }
  }

  /** At most eight options: summary, trend, three compare and three rank options. */
  lemma OptionCount(report: InspectionReport)
    ensures |OptionTexts(report)| <= 8
  {
    var keys := MissingKeys(report);
    OptionParts(report);
    DimOptionsMembers(ComparePrefix, CompareDims, keys, "");
    DimOptionsMembers(RankPrefix, RankDims, keys, "");
  }

  /** The first known dimension a text names, given which of the three it contains. */
  lemma FirstChoiceDim(text: string, k: nat)
    requires k < |ChoiceDims| && Contains(text, ChoiceDims[k])
    requires forall j :: 0 <= j < k ==> !Contains(text, ChoiceDims[j])
    ensures FirstDimIn(text, ChoiceDims) == Some(ChoiceDims[k])
  {
    assert ChoiceDims[1..][1..] == ["product"];
  }

  /** "View summary" maps to the summary intent. */
  lemma SummaryRoundTrip()
    ensures MapChoiceToIntent(SummaryOption) == Ok(Choice("SUMMARY", None))
  {
    assert MatchesAt(SummaryOption, "summary", 5);
    LowerMatchesNoUpper(SummaryOption, "summary", 5);
  }

  /** The trend option names "trend" and not "summary". */
  lemma TrendOptionWords()
    ensures Contains(Lower(TrendOption), "trend")
  {
    assert MatchesAt(TrendOption, "trend", 16);
    LowerMatchesNoUpper(TrendOption, "trend", 16);
  }

  lemma TrendOptionNoSummary()
    ensures !Contains(Lower(TrendOption), "summary")
  {
    NotContainsLower(TrendOption, {' ', 'A', 'a', 'd', 'e', 'i', 'l', 'm', 'n', 'o', 'r', 't', 'u', 'v', 'y', 'z'}, "summary", 's');
  }

  /** The trend option maps to the trend intent. */
  lemma TrendRoundTrip()
    ensures MapChoiceToIntent(TrendOption) == Ok(Choice("TREND", None))
  {
    TrendOptionWords();
    TrendOptionNoSummary();
  }

  /** The letters of the compare and rank prefixes. */
  const CompareLetters: set<char> := {' ', 'C', 'a', 'b', 'e', 'm', 'n', 'o', 'p', 'r', 'u', 'v', 'y'}
  const RankLetters: set<char> := {' ', 'R', 'a', 'b', 'e', 'f', 'k', 'm', 'n', 'o', 'p', 'r', 's', 't', 'y'}

  lemma HeadLetters()
    ensures Over(CompareHead, CompareLetters) && Over(RankHead, RankLetters)
  {
  }

  /** A compare option lower-cases to a text containing "compare" and its dimension. */
  lemma CompareHas(d: string)
    requires d in CompareDims
    ensures Contains(Lower(CompareOption(d)), "compare") && Contains(Lower(CompareOption(d)), d)
  {
    var s := CompareOption(d);
    assert MatchesAt(s, "Compare", 0);
    LowerMatchesCapital(s, "Compare", 0);
    assert [LowerChar('C')] + "ompare" == "compare";
    assert MatchesAt(s, d, 19);
    LowerMatchesNoUpper(s, d, 19);
  }

  /** A compare option names neither "summary" nor "trend", nor a dimension other than its own. */
  lemma CompareNoSummary(d: string)
    requires d in CompareDims
    ensures !Contains(Lower(CompareOption(d)), "summary")
  {
    HeadLetters();
    NotContainsLowerSplit(CompareHead, CompareLetters, d, "summary", 's', if d == "salesperson" then 'm' else 's');
  }

  lemma CompareNoTrend(d: string)
    requires d in CompareDims
    ensures !Contains(Lower(CompareOption(d)), "trend")
  {
    HeadLetters();
    NotContainsLowerSplit(CompareHead, CompareLetters, d, "trend", 't', if d == "product" then 'n' else 'd');
  }

  lemma CompareNoRegion(d: string)
    requires d in CompareDims && d != "region"
    ensures !Contains(Lower(CompareOption(d)), "region")
  {
    HeadLetters();
    NotContainsLowerSplit(CompareHead, CompareLetters, d, "region", 'g', 'g');
  }

  lemma CompareNoSalesperson(d: string)
    requires d in CompareDims && d != "salesperson"
    ensures !Contains(Lower(CompareOption(d)), "salesperson")
  {
    HeadLetters();
    NotContainsLowerSplit(CompareHead, CompareLetters, d, "salesperson", 's', 's');
  }

  /** A compare option maps to the compare intent with its own dimension. */
  lemma CompareRoundTrip(d: string)
    requires d in CompareDims
    ensures MapChoiceToIntent(CompareOption(d)) == Ok(Choice("COMPARE", Some(d)))
  {
    var text := Lower(CompareOption(d));
    CompareHas(d);
    CompareNoSummary(d);
    CompareNoTrend(d);
    if d != "region" {
      CompareNoRegion(d);
    }
    if d == "product" {
      CompareNoSalesperson(d);
    }
    var k := if d == "region" then 0 else if d == "salesperson" then 1 else 2;
    FirstChoiceDim(text, k);
  }

  /** A rank option lower-cases to a text containing "rank" and its dimension. */
  lemma RankHas(d: string)
    requires d in RankDims
    ensures Contains(Lower(RankOption(d)), "rank") && Contains(Lower(RankOption(d)), d)
  {
    var s := RankOption(d);
    assert MatchesAt(s, "Rank", 0);
    LowerMatchesCapital(s, "Rank", 0);
    assert [LowerChar('R')] + "ank" == "rank";
    assert MatchesAt(s, d, 23);
    LowerMatchesNoUpper(s, d, 23);
  }

  /** A rank option names none of "summary", "trend" and "compare", nor a dimension other than its own. */
  lemma RankNoSummary(d: string)
    requires d in RankDims
    ensures !Contains(Lower(RankOption(d)), "summary")
  {
    HeadLetters();
    NotContainsLowerSplit(RankHead, RankLetters, d, "summary", 'u', if d == "product" then 's' else 'u');
  }

  lemma RankNoTrend(d: string)
    requires d in RankDims
    ensures !Contains(Lower(RankOption(d)), "trend")
  {
    HeadLetters();
    NotContainsLowerSplit(RankHead, RankLetters, d, "trend", 'd', if d == "product" then 'n' else 'd');
  }

  lemma RankNoCompare(d: string)
    requires d in RankDims
    ensures !Contains(Lower(RankOption(d)), "compare")
  {
    HeadLetters();
    NotContainsLowerSplit(RankHead, RankLetters, d, "compare", 'c', if d == "product" then 'm' else 'c');
  }

  lemma RankNoRegion(d: string)
    requires d in RankDims && d != "region"
    ensures !Contains(Lower(RankOption(d)), "region")
  {
    HeadLetters();
    NotContainsLowerSplit(RankHead, RankLetters, d, "region", 'g', 'g');
  }

  lemma RankNoSalesperson(d: string)
    requires d in RankDims && d != "salesperson"
    ensures !Contains(Lower(RankOption(d)), "salesperson")
  {
    HeadLetters();
    NotContainsLowerSplit(RankHead, RankLetters, d, "salesperson", 'l', 'l');
  }

  /** A rank option maps to the rank intent with its own dimension. */
  lemma RankRoundTrip(d: string)
    requires d in RankDims
    ensures MapChoiceToIntent(RankOption(d)) == Ok(Choice("RANK", Some(d)))
  {
    var text := Lower(RankOption(d));
    RankHas(d);
    RankNoSummary(d);
    RankNoTrend(d);
    RankNoCompare(d);
    if d != "region" {
      RankNoRegion(d);
    }
    if d == "product" {
      RankNoSalesperson(d);
    }
    var k := if d == "region" then 0 else if d == "salesperson" then 1 else 2;
    FirstChoiceDim(text, k);
  }

  /**
   * Every option the menu offers is understood by the mapper: summary only when the report has rows,
   * trend only when "order_date" is a key, and compare and rank only for a dimension that is a key.
   */
  lemma MenuRoundTrip(report: InspectionReport, k: nat)
    requires k < |OptionTexts(report)|
    ensures var r := MapChoiceToIntent(OptionTexts(report)[k]);
      r.Ok? && (r.value.intent == "SUMMARY" ==> ReportRows(report) > 0)
      && (r.value.intent == "TREND" ==> "order_date" in MissingKeys(report))
      && (r.value.dimension.Some? ==> r.value.dimension.value in MissingKeys(report))
  {
    var keys := MissingKeys(report);
    var t := OptionTexts(report)[k];
    var cs, rs := DimOptions(ComparePrefix, CompareDims, keys), DimOptions(RankPrefix, RankDims, keys);
    OptionParts(report);
    assert t in OptionTexts(report);
    if t in cs {
      DimOptionsMembers(ComparePrefix, CompareDims, keys, t);
      var d :| d in CompareDims && d in keys && t == ComparePrefix + d;
      CompareRoundTrip(d);
      assert MapChoiceToIntent(t) == Ok(Choice("COMPARE", Some(d)));
    } else if t in rs {
      DimOptionsMembers(RankPrefix, RankDims, keys, t);
      var d :| d in RankDims && d in keys && t == RankPrefix + d;
      RankRoundTrip(d);
      assert MapChoiceToIntent(t) == Ok(Choice("RANK", Some(d)));
    } else if t == SummaryOption {
      SummaryRoundTrip();
      OfferedSummary(report);
    } else {
      assert t == TrendOption;
      TrendRoundTrip();
      OfferedTrend(report);
    }
  }

  /**
   * A compare text whose dimension has none of the letters g, s and d (in either case), such as
   * "country", names no known dimension and none of "summary" and "trend", and so is refused.
   */
  lemma UnknownDimensionRefused(d: string)
    requires 'g' !in d && 'G' !in d && 's' !in d && 'S' !in d && 'd' !in d && 'D' !in d
    ensures MapChoiceToIntent(CompareOption(d)) == Err("Unsupported guided analytics choice")
  {
    NoLetterAfterCompare(d, "summary", 's');
    NoLetterAfterCompare(d, "trend", 'd');
    UnknownDimensionNamesNone(d);
  }

  lemma UnknownDimensionNamesNone(d: string)
    requires 'g' !in d && 'G' !in d && 's' !in d && 'S' !in d && 'd' !in d && 'D' !in d
    ensures FirstDimIn(Lower(CompareOption(d)), ChoiceDims).None?
  {
    NoLetterAfterCompare(d, "region", 'g');
    NoLetterAfterCompare(d, "salesperson", 's');
    NoLetterAfterCompare(d, "product", 'd');
  }

  /** A keyword with a letter that neither the compare prefix nor the dimension has is not named. */
  lemma NoLetterAfterCompare(d: string, kw: string, c: char)
    requires ' ' !in kw && c in kw && c in {'d', 'g', 's', 't'} && c !in d && UpperChar(c) !in d
    ensures !Contains(Lower(CompareOption(d)), kw)
  {
    HeadLetters();
    NotContainsLowerSplit(CompareHead, CompareLetters, d, kw, c, c);
  }
}
