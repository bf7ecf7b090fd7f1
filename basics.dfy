/** Option and Result wrappers, plus a few sequence notions shared by the model. */
module Basics {

  datatype Option<+T> = None | Some(value: T)

  /** The outcome of an operation that the source may abort by raising. */
  datatype Result<+T, +E> = Ok(value: T) | Err(error: E)

  /** `a` keeps some of the elements of `b`, in the order of `b`. */
  predicate IsSubsequence<T(==)>(a: seq<T>, b: seq<T>)
    decreases |b|
  {
    if |a| == 0 then true
    else if |b| == 0 then false
    else if a[0] == b[0] then IsSubsequence(a[1..], b[1..])
    else IsSubsequence(a, b[1..])
  }

  lemma {:induction false} SubsequenceAppend<T>(a: seq<T>, b: seq<T>, x: T)
    requires IsSubsequence(a, b)
    ensures IsSubsequence(a, b + [x])
    ensures IsSubsequence(a + [x], b + [x])
    decreases |b|
  {
    if |a| == 0 {
      assert a + [x] == [x];
      SubsequenceSingleton(b, x);
    } else {
      assert |b| > 0;
      assert (b + [x])[1..] == b[1..] + [x];
      assert (a + [x])[1..] == a[1..] + [x];
      if a[0] == b[0] {
        SubsequenceAppend(a[1..], b[1..], x);
      } else {
        SubsequenceAppend(a, b[1..], x);
      }
    }
  }

  lemma {:induction false} SubsequenceSingleton<T>(b: seq<T>, x: T)
    ensures IsSubsequence([x], b + [x])
    decreases |b|
  {
    if |b| > 0 {
      assert (b + [x])[1..] == b[1..] + [x];
      if b[0] != x {
        SubsequenceSingleton(b[1..], x);
      } else {
        assert ([x])[1..] == [];
      }
    }
  }

  lemma {:induction false} SubsequenceMembers<T>(a: seq<T>, b: seq<T>)
    requires IsSubsequence(a, b)
    ensures forall x :: x in a ==> x in b
    decreases |b|
  {
    if |a| > 0 && |b| > 0 {
      if a[0] == b[0] {
        SubsequenceMembers(a[1..], b[1..]);
        assert forall x :: x in a ==> x == a[0] || x in a[1..];
      } else {
        SubsequenceMembers(a, b[1..]);
      }
    }
  }

  /** A non-empty suffix is its first element followed by the rest. */
  lemma SuffixCons<T>(s: seq<T>, i: nat)
    requires i < |s|
    ensures s[i..] == [s[i]] + s[i + 1..]
  {
  }

  lemma SubsequenceReflexive<T>(a: seq<T>)
    ensures IsSubsequence(a, a)
  {
    if |a| > 0 {
      SubsequenceReflexive(a[1..]);
    }
  }

  /** The elements of `s` are pairwise distinct. */
  predicate Distinct<T(==)>(s: seq<T>)
  {
    forall i, j :: 0 <= i < j < |s| ==> s[i] != s[j]
  }

  /** The set of the elements of a sequence. */
  function Elements<T>(s: seq<T>): set<T>
  {
    set x | x in s
  }

  lemma {:induction false} DistinctCardinality<T>(s: seq<T>)
    requires Distinct(s)
    ensures |Elements(s)| == |s|
    decreases |s|
  {
    if |s| > 0 {
      var init := s[..|s| - 1];
      assert Distinct(init);
      DistinctCardinality(init);
      assert s == init + [s[|s| - 1]];
      assert s[|s| - 1] !in init;
      assert Elements(s) == Elements(init) + {s[|s| - 1]};
    }
  }

  /** The position of the first element of `s` satisfying `p`, if there is one. */
  function FirstIndex<T>(s: seq<T>, p: T -> bool): (r: Option<nat>)
    ensures r.None? <==> forall k :: 0 <= k < |s| ==> !p(s[k])
    ensures r.Some? ==> r.value < |s| && p(s[r.value]) && forall k :: 0 <= k < r.value ==> !p(s[k])
  {
    if s == [] then None
    else if p(s[0]) then Some(0)
    else
      match FirstIndex(s[1..], p)
      case None => None
      case Some(k) => Some(k + 1)
  }

  /** Extending a sequence at the end moves its first match only if it had none. */
  lemma FirstIndexSnoc<T>(s: seq<T>, x: T, p: T -> bool)
    ensures FirstIndex(s + [x], p) == if FirstIndex(s, p).Some? then FirstIndex(s, p) else if p(x) then Some(|s|) else None
  {
    var t := s + [x];
    var r, q := FirstIndex(t, p), FirstIndex(s, p);
    assert forall k :: 0 <= k < |s| ==> t[k] == s[k];
    if q.Some? {
      assert p(t[q.value]);
      assert r.Some? && r.value <= q.value;
      assert r.value == q.value;
    } else {
      assert t[|s|] == x;
    }
  }
}
