/**
 * The v4 capability reasoner: which analyses a canonical table supports, read off its column
 * names, and which risks its distinct counts suggest.
 */
module V4SystemReasoner {
  import opened Basics
  import opened Text
  import opened Table
  import opened V4SchemaAdapter

  /** The keys of the `capabilities` dictionary, in insertion order. */
  datatype Capability = Summary | Rank | Trend | Compare

  function CapabilityKey(c: Capability): string
  {
    match c
    case Summary => "summary"
    case Rank => "rank"
    case Trend => "trend"
    case Compare => "compare"
  }

  const Capabilities: seq<Capability> := [Summary, Rank, Trend, Compare]

  const DisabledReason: string := "Required canonical fields missing"
  const LowVarianceRisk: string := "Low variance in measure may reduce analytical insight"
  const SingleTimeRisk: string := "Single time value limits trend depth"

  /** Some column name starts with `dimension_`. */
  predicate HasDimension(names: seq<string>)
  {
    exists k :: 0 <= k < |names| && StartsWith(names[k], "dimension_")
  }

  /** The value of one entry of the `capabilities` dictionary. */
  predicate Capable(names: seq<string>, c: Capability)
  {
    match c
    case Summary => "measure" in names
    case Rank => "measure" in names && "entity" in names
    case Trend => "measure" in names && "time" in names
    case Compare => HasDimension(names)
  }

  /** The `explanation` dictionary; `disabled` is a dictionary, as pairs in insertion order. */
  datatype Explanation = Explanation(
    enabled: seq<Capability>,
    disabled: seq<(Capability, string)>,
    assumptions: seq<string>,
    risks: seq<string>)

  /** `canonical_df["measure"]` on a table without that column. */
  datatype ReasonerError = KeyError(column: string)

  /** The capabilities among `cs` that hold, in order. */
  function EnabledAmong(names: seq<string>, cs: seq<Capability>): seq<Capability>
    decreases |cs|
  {
    if cs == [] then []
    else EnabledAmong(names, cs[..|cs| - 1]) + (if Capable(names, cs[|cs| - 1]) then [cs[|cs| - 1]] else [])
  }

  /** The capabilities among `cs` that fail, each with the fixed reason, in order. */
  function DisabledAmong(names: seq<string>, cs: seq<Capability>): seq<(Capability, string)>
    decreases |cs|
  {
    if cs == [] then []
    else DisabledAmong(names, cs[..|cs| - 1]) + (if Capable(names, cs[|cs| - 1]) then [] else [(cs[|cs| - 1], DisabledReason)])
  }

  /** The risks, in the order they are appended. */
  function Risks(df: Table): seq<string>
    requires "measure" in Names(df.columns)
  {
    (if Nunique(FindColumn(df.columns, "measure").value.cells) < 3 then [LowVarianceRisk] else [])
      + (if "time" in Names(df.columns) && Nunique(FindColumn(df.columns, "time").value.cells) == 1 then [SingleTimeRisk] else [])
  }

  /** What `reason_about_capabilities` returns or raises. */
  function Explain(df: Table): Result<Explanation, ReasonerError>
  {
    var names := Names(df.columns);
    if "measure" !in names then Err(ReasonerError.KeyError("measure"))
    else Ok(Explanation(EnabledAmong(names, Capabilities), DisabledAmong(names, Capabilities), [], Risks(df)))
  }

  /** `reason_about_capabilities`: the enabled/disabled loop over the capabilities, then the risk checks. */
  method ReasonAboutCapabilities(df: Table) returns (r: Result<Explanation, ReasonerError>)
    ensures r == Explain(df)
  {
    var names := Names(df.columns);
    var enabled: seq<Capability> := [];
    var disabled: seq<(Capability, string)> := [];
    for i := 0 to |Capabilities|
      invariant enabled == EnabledAmong(names, Capabilities[..i])
      invariant disabled == DisabledAmong(names, Capabilities[..i])
    {
      var c := Capabilities[i];
      assert Capabilities[..i + 1][..i] == Capabilities[..i];
      if Capable(names, c) {
        enabled := enabled + [c];
      } else {
        disabled := disabled + [(c, DisabledReason)];
      }
    }
    assert Capabilities[..|Capabilities|] == Capabilities;
    if "measure" !in names {
      return Err(ReasonerError.KeyError("measure"));
    }
    var risks: seq<string> := [];
    if Nunique(FindColumn(df.columns, "measure").value.cells) < 3 {
      risks := risks + [LowVarianceRisk];
    }
    if "time" in names && Nunique(FindColumn(df.columns, "time").value.cells) == 1 {
      risks := risks + [SingleTimeRisk];
    }
    assert risks == Risks(df);
    assert enabled == EnabledAmong(names, Capabilities);
    r := Ok(Explanation(enabled, disabled, [], risks));
  }

  /** Every capability is one of the four dictionary keys. */
  lemma AllCapabilities(c: Capability)
    ensures c in Capabilities
  {
    match c
    case Summary => assert Capabilities[0] == c;
    case Rank => assert Capabilities[1] == c;
    case Trend => assert Capabilities[2] == c;
    case Compare => assert Capabilities[3] == c;
  }

  /** The enabled capabilities keep the order of `cs`. */
  lemma {:induction false} EnabledInOrder(names: seq<string>, cs: seq<Capability>)
    ensures IsSubsequence(EnabledAmong(names, cs), cs)
    decreases |cs|
  {
    if cs != [] {
      var init, last := cs[..|cs| - 1], cs[|cs| - 1];
      EnabledInOrder(names, init);
      assert cs == init + [last];
      SubsequenceAppend(EnabledAmong(names, init), init, last);
      if Capable(names, last) {
        assert EnabledAmong(names, cs) == EnabledAmong(names, init) + [last];
      } else {
        assert EnabledAmong(names, cs) == EnabledAmong(names, init);
      }
    }
  }

  /** Among `cs`, a capability is enabled exactly when it holds. */
  lemma {:induction false} EnabledMembers(names: seq<string>, cs: seq<Capability>)
    ensures forall c :: c in EnabledAmong(names, cs) <==> c in cs && Capable(names, c)
    decreases |cs|
  {
    if cs != [] {
      var init, last := cs[..|cs| - 1], cs[|cs| - 1];
      EnabledMembers(names, init);
      assert cs == init + [last];
    }
  }

  /** Among `cs`, a capability is disabled, with the fixed reason, exactly when it does not hold; no other reason occurs. */
  lemma {:induction false} DisabledMembers(names: seq<string>, cs: seq<Capability>)
    ensures forall c :: (c, DisabledReason) in DisabledAmong(names, cs) <==> c in cs && !Capable(names, c)
    ensures forall p :: p in DisabledAmong(names, cs) ==> p.1 == DisabledReason
    decreases |cs|
  {
    if cs != [] {
      var init, last := cs[..|cs| - 1], cs[|cs| - 1];
      DisabledMembers(names, init);
      assert cs == init + [last];
    }
  }

  /** Each capability of `cs` is either enabled or disabled, exactly once. */
  lemma {:induction false} EnabledDisabledCount(names: seq<string>, cs: seq<Capability>)
    ensures |EnabledAmong(names, cs)| + |DisabledAmong(names, cs)| == |cs|
    decreases |cs|
  {
    if cs != [] {
      EnabledDisabledCount(names, cs[..|cs| - 1]);
    }
  }

  /** Without a `measure` column the reasoner raises; otherwise assumptions are empty and the risks are those of `Risks`. */
  lemma ExplainMeaning(df: Table)
    ensures Explain(df).Err? <==> "measure" !in Names(df.columns)
    ensures Explain(df).Ok? ==> Explain(df).value.assumptions == [] && Explain(df).value.risks == Risks(df)
  {
  }

  /**
   * On success the four capabilities split into enabled ones, in dictionary order, and disabled
   * ones, with the fixed reason, each capability in exactly one of them.
   */
  lemma ExplainPartition(df: Table)
    requires Explain(df).Ok?
    ensures IsSubsequence(Explain(df).value.enabled, Capabilities)
    ensures forall c :: c in Explain(df).value.enabled <==> Capable(Names(df.columns), c)
    ensures forall c :: (c, DisabledReason) in Explain(df).value.disabled <==> !Capable(Names(df.columns), c)
    ensures forall p :: p in Explain(df).value.disabled ==> p.1 == DisabledReason
    ensures |Explain(df).value.enabled| + |Explain(df).value.disabled| == 4
  {
    var names := Names(df.columns);
    EnabledInOrder(names, Capabilities);
    EnabledMembers(names, Capabilities);
    DisabledMembers(names, Capabilities);
    EnabledDisabledCount(names, Capabilities);
    forall c: Capability {
      AllCapabilities(c);
    }
  }

  /**
   * The low-variance risk is raised exactly when the measure has fewer than 3 distinct values,
   * the single-time risk exactly when `time` exists with one distinct value, in that order.
   */
  lemma RisksMeaning(df: Table)
    requires "measure" in Names(df.columns)
    ensures LowVarianceRisk in Risks(df) <==> Nunique(FindColumn(df.columns, "measure").value.cells) < 3
    ensures SingleTimeRisk in Risks(df) <==>
      "time" in Names(df.columns) && Nunique(FindColumn(df.columns, "time").value.cells) == 1
    ensures |Risks(df)| <= 2
    ensures |Risks(df)| == 2 ==> Risks(df) == [LowVarianceRisk, SingleTimeRisk]
  {
  }

  /**
   * `compare` needs no measure: on any table with a dimension column and no `measure` column the
   * capability loop enables `compare` alone, and the reasoner then raises on the missing measure.
   */
  lemma CompareWithoutMeasure(df: Table)
    requires HasDimension(Names(df.columns)) && "measure" !in Names(df.columns)
    ensures Capable(Names(df.columns), Compare) && !Capable(Names(df.columns), Summary)
    ensures EnabledAmong(Names(df.columns), Capabilities) == [Compare]
    ensures Explain(df) == Err(ReasonerError.KeyError("measure"))
  {
    var names := Names(df.columns);
    var c1, c2, c3 := Capabilities[..1], Capabilities[..2], Capabilities[..3];
    assert c1[..0] == [] && c2[..1] == c1 && c3[..2] == c2 && Capabilities[..3] == c3;
    assert EnabledAmong(names, c1) == [];
    assert EnabledAmong(names, c2) == [];
    assert EnabledAmong(names, c3) == [];
  }

  /** Dimension names start with `dimension_` and differ from the other canonical names. */
  lemma DimensionNameShape(k: nat)
    ensures StartsWith(DimensionName(k), "dimension_")
    ensures DimensionName(k) !in {"measure", "entity", "time"}
  {
    DimensionNameHead(k);
  }

  /** Which names a canonical name list holds, read off the mapping. */
  lemma CanonicalNamesFacts(m: MappingDict)
    ensures "measure" in CanonicalNames(m)
    ensures "entity" in CanonicalNames(m) <==> Truthy(m.entity)
    ensures "time" in CanonicalNames(m) <==> Truthy(m.time)
    ensures HasDimension(CanonicalNames(m)) <==> |m.dimensions| > 0
  {
    var head := ["measure"] + ((if Truthy(m.entity) then ["entity"] else []) + (if Truthy(m.time) then ["time"] else []));
    var dims := DimensionNameList(|m.dimensions|);
    assert CanonicalNames(m) == head + dims;
    FixedNames(m, head);
    DimensionNamesOnly(dims);
    assert forall x :: x in head + dims <==> x in head || x in dims;
    if |m.dimensions| > 0 {
      assert (head + dims)[|head|] == dims[0];
    }
    if HasDimension(head + dims) {
      var k :| 0 <= k < |head + dims| && StartsWith((head + dims)[k], "dimension_");
    }
  }

  /** The fixed part of the canonical names: `measure`, then `entity` and `time` when mapped; none is a dimension name. */
  lemma FixedNames(m: MappingDict, head: seq<string>)
    requires head == ["measure"] + ((if Truthy(m.entity) then ["entity"] else []) + (if Truthy(m.time) then ["time"] else []))
    ensures "measure" in head
    ensures "entity" in head <==> Truthy(m.entity)
    ensures "time" in head <==> Truthy(m.time)
    ensures forall k :: 0 <= k < |head| ==> !StartsWith(head[k], "dimension_")
  {
    assert head[0] == "measure";
    forall k | 0 <= k < |head| ensures !StartsWith(head[k], "dimension_") && head[k] in {"measure", "entity", "time"} {
    }
  }

  /** Dimension names all start with `dimension_` and are none of the fixed names. */
  lemma DimensionNamesOnly(dims: seq<string>)
    requires dims == DimensionNameList(|dims|)
    ensures forall k :: 0 <= k < |dims| ==> StartsWith(dims[k], "dimension_") && dims[k] !in {"measure", "entity", "time"}
  {
    forall k | 0 <= k < |dims| ensures StartsWith(dims[k], "dimension_") && dims[k] !in {"measure", "entity", "time"} {
      DimensionNameShape(k + 1);
    }
  }

  /**
   * A table built by the v4 adapter never makes the reasoner raise and always supports a summary;
   * rank follows the entity mapping, trend the time mapping and compare the dimension list.
   */
  lemma CanonicalFrameCapabilities(df: Table, m: MappingDict, active: string, parse: Value -> Option<int>)
    requires CanonicalFrame(df, m, active, parse).Ok?
    ensures Explain(CanonicalFrame(df, m, active, parse).value).Ok?
    ensures Summary in Explain(CanonicalFrame(df, m, active, parse).value).value.enabled
    ensures Rank in Explain(CanonicalFrame(df, m, active, parse).value).value.enabled <==> Truthy(m.entity)
    ensures Trend in Explain(CanonicalFrame(df, m, active, parse).value).value.enabled <==> Truthy(m.time)
    ensures Compare in Explain(CanonicalFrame(df, m, active, parse).value).value.enabled <==> |m.dimensions| > 0
  {
    var out := CanonicalFrame(df, m, active, parse).value;
    CanonicalFrameNames(df, m, active, parse);
    CanonicalNamesFacts(m);
    ExplainPartition(out);
  }
}
