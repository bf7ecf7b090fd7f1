/**
 * Suggestions: the human-readable advice built from an inspection report, one message per
 * section (missing values, duplicates, revenue consistency) and a readiness message when the
 * dataset is clean. Absent sections read as empty or zero.
 */
module Suggestions {
  import opened Basics
  import opened Text
  import opened DataInspector

  // A message longer than about forty characters is written as pieces: the verifier reads the
  // characters of literals that short, and the pieces concatenate to the program's message.
  const MissingLead: string := "Missing values detected in columns: "
  const MissingTail: string := ". Consider handling them before analysis."
  const NoMissingMessage: string := "No missing values detected. " + "No null handling is required."
  const DuplicateTail: string := " duplicate rows found. " + "Review and remove duplicates if necessary."
  const NoDuplicateMessage: string := "No duplicate records detected."
  const RevenueFailMessage: string :=
    "Revenue values are inconsistent " + "with units sold and unit price. " + "Verify revenue calculations."
  const RevenuePassMessage: string := "Revenue values are consistent " + "with units sold and unit price."
  const ReadyMessage: string :=
    "Dataset is clean and ready " + "for analytics. " + "You can proceed with trend, " + "comparison, or ranking analyses."

  /** `inspection_report.get("missing_values", {})`. */
  function MissingEntries(report: InspectionReport): seq<MissingEntry>
  {
    match report.missingValues
    case Some(entries) => entries
    case None => []
  }

  /** `duplicates.get("total_duplicate_rows", 0)`, with an absent section read as `{}`. */
  function TotalDuplicates(report: InspectionReport): nat
  {
    match report.duplicates
    case Some(d) => d.totalDuplicateRows
    case None => 0
  }

  /** The column names of the missing-values entries, in report order. */
  function EntryColumns(entries: seq<MissingEntry>): (r: seq<string>)
    ensures |r| == |entries| && forall k :: 0 <= k < |entries| ==> r[k] == entries[k].column
  {
    seq(|entries|, k requires 0 <= k < |entries| => entries[k].column)
  }

  /** `[col for col, stats in missing.items() if stats["missing_count"] > 0]`. */
  function ColumnsWithMissing(entries: seq<MissingEntry>): (r: seq<string>)
    ensures forall c :: c in r <==> exists k :: 0 <= k < |entries| && entries[k].column == c && entries[k].missingCount > 0
    ensures IsSubsequence(r, EntryColumns(entries))
    decreases |entries|
  {
    if entries == [] then []
    else
      var init, last := entries[..|entries| - 1], entries[|entries| - 1];
      var rest := ColumnsWithMissing(init);
      assert EntryColumns(entries) == EntryColumns(init) + [last.column];
      assert forall k :: 0 <= k < |init| ==> init[k] == entries[k];
      SubsequenceAppend(rest, EntryColumns(init), last.column);
      if last.missingCount > 0 then rest + [last.column] else rest
  }

  /** The first suggestion: the columns with missing values, or the all-clear. */
  function MissingSuggestion(cols: seq<string>): string
  {
    if cols != [] then MissingLead + Join(cols, ", ") + MissingTail else NoMissingMessage
  }

  /** The second suggestion: the duplicate count, or the all-clear. */
  function DuplicateSuggestion(n: nat): string
  {
    if n > 0 then NatToString(n) + DuplicateTail else NoDuplicateMessage
  }

  /** The revenue suggestion: one for FAIL, one for PASS, none otherwise. */
  function RevenueSuggestions(check: Option<RevenueCheck>): seq<string>
  {
    match check
    case Some(Fail) => [RevenueFailMessage]
    case Some(Pass) => [RevenuePassMessage]
    case _ => []
  }

  /** No missing columns, no duplicates and a passing revenue check. */
  predicate Clean(report: InspectionReport)
  {
    ColumnsWithMissing(MissingEntries(report)) == [] && TotalDuplicates(report) == 0 && report.numericChecks == Some(Pass)
  }

  /** What `generate_suggestions` returns. */
  function Suggestions(report: InspectionReport): seq<string>
  {
    [MissingSuggestion(ColumnsWithMissing(MissingEntries(report))), DuplicateSuggestion(TotalDuplicates(report))]
      + RevenueSuggestions(report.numericChecks) + (if Clean(report) then [ReadyMessage] else [])
  }

  /** `generate_suggestions`: the list appended to section by section. */
  method GenerateSuggestions(report: InspectionReport) returns (suggestions: seq<string>)
    ensures suggestions == Suggestions(report)
  {
    suggestions := [];
    var missing := MissingEntries(report);
    var columnsWithMissing := ColumnsWithMissing(missing);
    if columnsWithMissing != [] {
      suggestions := suggestions + [MissingLead + Join(columnsWithMissing, ", ") + MissingTail];
    } else {
      suggestions := suggestions + [NoMissingMessage];
    }

    var totalDupes := TotalDuplicates(report);
    if totalDupes > 0 {
      suggestions := suggestions + [NatToString(totalDupes) + DuplicateTail];
    } else {
      suggestions := suggestions + [NoDuplicateMessage];
    }

    var revenueCheck := report.numericChecks;
    if revenueCheck == Some(Fail) {
      suggestions := suggestions + [RevenueFailMessage];
    } else if revenueCheck == Some(Pass) {
      suggestions := suggestions + [RevenuePassMessage];
    }

    if columnsWithMissing == [] && totalDupes == 0 && revenueCheck == Some(Pass) {
      suggestions := suggestions + [ReadyMessage];
    }
  }

  /** Two to four suggestions: missing values and duplicates always, then revenue and readiness. */
  lemma SuggestionCount(report: InspectionReport)
    ensures 2 <= |Suggestions(report)| <= 4
    ensures |Suggestions(report)| == 4 ==> Clean(report)
  {
  }

  /** The first letter of each message, which tells the messages apart. */
  lemma MessageHeads(cols: seq<string>, n: nat)
    ensures |MissingSuggestion(cols)| > 0 && MissingSuggestion(cols)[0] in {'M', 'N'}
    ensures |DuplicateSuggestion(n)| > 0 && (DuplicateSuggestion(n)[0] == 'N' || '0' <= DuplicateSuggestion(n)[0] <= '9')
    ensures RevenueFailMessage[0] == 'R' && RevenuePassMessage[0] == 'R' && ReadyMessage[0] == 'D'
    ensures RevenueFailMessage[19] == 'i' && RevenuePassMessage[19] == 'c'
  {
    if n > 0 {
      assert DuplicateSuggestion(n)[0] == NatToString(n)[0];
    }
  }

  /**
   * The first suggestion reports missing values exactly when some column has a positive missing
   * count, and then lists exactly those columns, in report order.
   */
  lemma MissingSuggestionMeaning(report: InspectionReport)
    ensures var es := MissingEntries(report);
      Suggestions(report)[0] != NoMissingMessage <==> exists k :: 0 <= k < |es| && es[k].missingCount > 0
    ensures var cols := ColumnsWithMissing(MissingEntries(report));
      cols != [] ==> Suggestions(report)[0] == MissingLead + Join(cols, ", ") + MissingTail
  {
    var es := MissingEntries(report);
    var cols := ColumnsWithMissing(es);
    MessageHeads(cols, 0);
    if cols != [] {
      assert cols[0] in cols;
    }
    if exists k :: 0 <= k < |es| && es[k].missingCount > 0 {
      var k :| 0 <= k < |es| && es[k].missingCount > 0;
      assert es[k].column in cols;
      assert (MissingLead + Join(cols, ", ") + MissingTail)[0] == 'M';
    }
  }

  /** The second suggestion is the all-clear exactly when there are no duplicate rows, and otherwise gives their number. */
  lemma DuplicateSuggestionMeaning(report: InspectionReport)
    ensures Suggestions(report)[1] == NoDuplicateMessage <==> TotalDuplicates(report) == 0
    ensures TotalDuplicates(report) > 0 ==> Suggestions(report)[1] == NatToString(TotalDuplicates(report)) + DuplicateTail
  {
    MessageHeads([], TotalDuplicates(report));
  }

  /** Two duplicate warnings are equal only for equal counts: the message determines the number. */
  lemma DuplicateSuggestionInjective(a: nat, b: nat)
    requires a > 0 && b > 0 && DuplicateSuggestion(a) == DuplicateSuggestion(b)
    ensures a == b
  {
    var sa, sb := NatToString(a), NatToString(b);
    assert |sa| == |sb|;
    assert sa == (sa + DuplicateTail)[..|sa|];
    assert sb == (sb + DuplicateTail)[..|sb|];
    NatToStringInjective(a, b);
  }

  /** Each revenue message appears exactly for its own outcome of the consistency check. */
  lemma RevenueSuggestionMeaning(report: InspectionReport)
    ensures RevenueFailMessage in Suggestions(report) <==> report.numericChecks == Some(Fail)
    ensures RevenuePassMessage in Suggestions(report) <==> report.numericChecks == Some(Pass)
  {
    var s := Suggestions(report);
    MessageHeads(ColumnsWithMissing(MissingEntries(report)), TotalDuplicates(report));
    assert s[0] != RevenueFailMessage && s[0] != RevenuePassMessage;
    assert s[1] != RevenueFailMessage && s[1] != RevenuePassMessage;
    assert RevenueFailMessage != RevenuePassMessage;
    assert RevenueFailMessage != ReadyMessage && RevenuePassMessage != ReadyMessage;
  }

  /** The readiness message appears exactly when the dataset is clean. */
  lemma ReadinessMeaning(report: InspectionReport)
    ensures ReadyMessage in Suggestions(report) <==> Clean(report)
  {
    var s := Suggestions(report);
    MessageHeads(ColumnsWithMissing(MissingEntries(report)), TotalDuplicates(report));
    assert s[0] != ReadyMessage && s[1] != ReadyMessage;
    assert RevenueFailMessage != ReadyMessage && RevenuePassMessage != ReadyMessage;
  }
}
