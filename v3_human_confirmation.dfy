/**
 * Human confirmation of the v3 proposals. Each proposal, in order, is answered by one response
 * (the line the user types, here given as a sequence): "y" accepts the proposed column, "n"
 * rejects it, any other non-empty text names a column of its own, and an empty line skips.
 */
module V3HumanConfirmation {
  import opened Basics
  import opened Text
  import opened V3SemanticMapper

  /** One entry of the confirmed field-to-column dictionary. */
  datatype Binding = Binding(field: string, column: string)

  /** What one response decides, read off `input(...).strip()`. */
  datatype Decision = Accept | Reject | Custom(column: string) | NoInput

  function Decide(response: string): Decision
  {
    var answer := Strip(response);
    if Lower(answer) == "y" then Accept
    else if Lower(answer) == "n" then Reject
    else if answer != "" then Custom(answer)
    else NoInput
  }

  /** A one-letter answer matches a lower-case letter exactly when it is that letter in either case. */
  lemma LowerSingle(x: string, c: char, upper: char)
    requires 'a' <= c <= 'z' && upper as int == c as int - 32
    ensures Lower(x) == [c] <==> x == [c] || x == [upper]
  {
    if |x| == 1 {
      assert Lower(x) == [LowerChar(x[0])];
      assert x == [x[0]];
    }
  }

  /**
   * "y" or "Y" accepts and "n" or "N" rejects, whatever whitespace surrounds them; an empty or
   * all-blank line is no input; any other text is a custom column, stripped but with its case kept.
   */
  lemma DecideMeaning(response: string)
    ensures Decide(response) == Accept <==> Strip(response) == "y" || Strip(response) == "Y"
    ensures Decide(response) == Reject <==> Strip(response) == "n" || Strip(response) == "N"
    ensures Decide(response) == NoInput <==> Strip(response) == ""
    ensures Decide(response).Custom? ==>
      && Decide(response).column == Strip(response)
      && Strip(response) !in {"", "y", "Y", "n", "N"}
  {
    LowerSingle(Strip(response), 'y', 'Y');
    LowerSingle(Strip(response), 'n', 'N');
  }

  /** The binding one proposal yields, if any. */
  function BindingFor(p: V3Proposal, response: string): (r: Option<Binding>)
    ensures r.Some? ==> r.value.field == p.field
  {
    match Decide(response)
    case Accept => Some(Binding(p.field, p.column))
    case Custom(c) => Some(Binding(p.field, c))
    case _ => None
  }

  /** A proposal yields a binding exactly when its response accepts or names a column. */
  lemma BindingForSome(p: V3Proposal, response: string)
    ensures BindingFor(p, response).Some? <==> Decide(response).Accept? || Decide(response).Custom?
  {
  }

  /** The confirmed dictionary after the first `|ps|` proposals, response `i` answering proposal `i`. */
  function ConfirmedOver(ps: seq<V3Proposal>, responses: seq<string>): seq<Binding>
    requires |responses| >= |ps|
    decreases |ps|
  {
    if ps == [] then []
    else
      ConfirmedOver(ps[..|ps| - 1], responses)
      + match BindingFor(ps[|ps| - 1], responses[|ps| - 1]) case None => [] case Some(b) => [b]
  }

  /** The fields of a sequence of bindings. */
  function BoundFields(bs: seq<Binding>): (r: seq<string>)
    ensures |r| == |bs| && forall i :: 0 <= i < |bs| ==> r[i] == bs[i].field
  {
    seq(|bs|, i requires 0 <= i < |bs| => bs[i].field)
  }

  /** `confirmed.get(field)`: the column of the latest assignment to `field`. */
  function Lookup(bs: seq<Binding>, field: string): Option<string>
    decreases |bs|
  {
    if bs == [] then None
    else if bs[|bs| - 1].field == field then Some(bs[|bs| - 1].column)
    else Lookup(bs[..|bs| - 1], field)
  }

  function ColumnOf(b: Option<Binding>): Option<string>
  {
    match b
    case None => None
    case Some(b) => Some(b.column)
  }

  lemma LookupSnoc(bs: seq<Binding>, b: Binding, field: string)
    ensures Lookup(bs + [b], field) == if b.field == field then Some(b.column) else Lookup(bs, field)
  {
    assert (bs + [b])[..|bs|] == bs;
  }

  lemma BoundFieldsSnoc(bs: seq<Binding>, b: Binding)
    ensures BoundFields(bs + [b]) == BoundFields(bs) + [b.field]
  {
  }

  /** `confirm_mappings`: one prompt per proposal, in order. */
  method ConfirmMappings(proposals: seq<V3Proposal>, responses: seq<string>) returns (confirmed: seq<Binding>)
    requires |responses| >= |proposals|
    ensures confirmed == ConfirmedOver(proposals, responses)
  {
    confirmed := [];
    assert proposals[..0] == [];
    for i := 0 to |proposals|
      invariant confirmed == ConfirmedOver(proposals[..i], responses)
    {
      var p := proposals[i];
      ConfirmedOverStep(proposals, responses, i);
      var decision := Decide(responses[i]);
      match decision {
        case Accept =>
          confirmed := confirmed + [Binding(p.field, p.column)];
        case Reject =>
        case Custom(c) =>
          confirmed := confirmed + [Binding(p.field, c)];
        case NoInput =>
      }
    }
    assert proposals[..|proposals|] == proposals;
  }

  /** One more prompt adds the binding of the next proposal, if it has one. */
  lemma ConfirmedOverStep(ps: seq<V3Proposal>, responses: seq<string>, i: nat)
    requires i < |ps| <= |responses|
    ensures ConfirmedOver(ps[..i + 1], responses)
      == ConfirmedOver(ps[..i], responses) + match BindingFor(ps[i], responses[i]) case None => [] case Some(b) => [b]
  {
    assert ps[..i + 1][..i] == ps[..i] && ps[..i + 1][i] == ps[i];
  }

  /** Only consulted fields are bound, in proposal order. */
  lemma {:induction false} ConfirmedFields(ps: seq<V3Proposal>, responses: seq<string>)
    requires |responses| >= |ps|
    ensures IsSubsequence(BoundFields(ConfirmedOver(ps, responses)), FieldNames(ps))
    decreases |ps|
  {
    if ps != [] {
      var init, last := ps[..|ps| - 1], ps[|ps| - 1];
      ConfirmedFields(init, responses);
      FieldNamesInit(ps);
      var before := ConfirmedOver(init, responses);
      var nb := BindingFor(last, responses[|ps| - 1]);
      SubsequenceAppend(BoundFields(before), FieldNames(init), last.field);
      if nb.Some? {
        assert ConfirmedOver(ps, responses) == before + [nb.value];
        BoundFieldsSnoc(before, nb.value);
        assert BoundFields(ConfirmedOver(ps, responses)) == BoundFields(before) + [last.field];
      } else {
        assert ConfirmedOver(ps, responses) == before;
      }
    }
  }

  /** The fields of a nonempty sequence of proposals end with the last one's. */
  lemma FieldNamesInit(ps: seq<V3Proposal>)
    requires ps != []
    ensures FieldNames(ps) == FieldNames(ps[..|ps| - 1]) + [ps[|ps| - 1].field]
  {
    assert ps == ps[..|ps| - 1] + [ps[|ps| - 1]];
    FieldNamesSnoc(ps[..|ps| - 1], ps[|ps| - 1]);
  }

  /** The binding of a field that no proposal in `ps` names is never added. */
  lemma {:induction false} UnconsultedUnbound(ps: seq<V3Proposal>, responses: seq<string>, field: string)
    requires |responses| >= |ps|
    requires forall i :: 0 <= i < |ps| ==> ps[i].field != field
    ensures Lookup(ConfirmedOver(ps, responses), field).None?
    decreases |ps|
  {
    if ps != [] {
      var init, last := ps[..|ps| - 1], ps[|ps| - 1];
      UnconsultedUnbound(init, responses, field);
      var before := ConfirmedOver(init, responses);
      var nb := BindingFor(last, responses[|ps| - 1]);
      if nb.Some? {
        assert ConfirmedOver(ps, responses) == before + [nb.value];
        LookupSnoc(before, nb.value, field);
      } else {
        assert ConfirmedOver(ps, responses) == before;
      }
    }
  }

  /** The last proposal's binding, when it has one for `field`, is the latest assignment to it. */
  lemma LookupConfirmedSnoc(ps: seq<V3Proposal>, responses: seq<string>, field: string)
    requires |responses| >= |ps| > 0
    ensures var last := ps[|ps| - 1];
      var nb := BindingFor(last, responses[|ps| - 1]);
      Lookup(ConfirmedOver(ps, responses), field) ==
        if last.field == field && nb.Some? then ColumnOf(nb) else Lookup(ConfirmedOver(ps[..|ps| - 1], responses), field)
  {
    var before := ConfirmedOver(ps[..|ps| - 1], responses);
    var nb := BindingFor(ps[|ps| - 1], responses[|ps| - 1]);
    if nb.Some? {
      assert ConfirmedOver(ps, responses) == before + [nb.value];
      LookupSnoc(before, nb.value, field);
    } else {
      assert ConfirmedOver(ps, responses) == before;
    }
  }

  /** Dropping the last proposal keeps fields distinct, and no earlier proposal shares its field. */
  lemma DistinctInit(ps: seq<V3Proposal>)
    requires |ps| > 0 && Distinct(FieldNames(ps))
    ensures Distinct(FieldNames(ps[..|ps| - 1]))
    ensures forall k :: 0 <= k < |ps| - 1 ==> ps[k].field != ps[|ps| - 1].field
  {
    var init := ps[..|ps| - 1];
    forall a, b | 0 <= a < b < |init| ensures FieldNames(init)[a] != FieldNames(init)[b] {
      assert FieldNames(ps)[a] != FieldNames(ps)[b];
    }
    forall k | 0 <= k < |ps| - 1 ensures ps[k].field != ps[|ps| - 1].field {
      assert FieldNames(ps)[k] != FieldNames(ps)[|ps| - 1];
    }
  }

  /**
   * With distinct proposal fields (the keys of a dictionary), the confirmed column of the field of
   * proposal `i` is decided by response `i` alone: the proposed column on accept, the typed name
   * for a custom answer, and absent on reject or no input.
   */
  lemma {:induction false} ConfirmedLookup(ps: seq<V3Proposal>, responses: seq<string>, i: nat)
    requires |responses| >= |ps|
    requires Distinct(FieldNames(ps))
    requires i < |ps|
    ensures Lookup(ConfirmedOver(ps, responses), ps[i].field) == ColumnOf(BindingFor(ps[i], responses[i]))
    decreases |ps|
  {
    var init := ps[..|ps| - 1];
    var field := ps[i].field;
    LookupConfirmedSnoc(ps, responses, field);
    DistinctInit(ps);
    if i < |ps| - 1 {
      assert init[i] == ps[i];
      ConfirmedLookup(init, responses, i);
    } else {
      UnconsultedUnbound(init, responses, field);
    }
  }
}
