/** String helpers standing in for Python's `str.lower`, `str.strip`, `in` and `startswith`. */
module Text {

  /** ASCII lower-casing of one character. */
  function LowerChar(c: char): char
  {
    if 'A' <= c <= 'Z' then (c as int + 32) as char else c
  }

  /** `s.lower()` for ASCII letters. */
  function Lower(s: string): (r: string)
    ensures |r| == |s|
  {
    if s == [] then [] else [LowerChar(s[0])] + Lower(s[1..])
  }

  /** Lower-casing works character by character. */
  lemma {:induction false} LowerAt(s: string)
    ensures forall i :: 0 <= i < |s| ==> Lower(s)[i] == LowerChar(s[i])
  {
    if s != [] {
      LowerAt(s[1..]);
      assert forall i :: 0 < i < |s| ==> Lower(s)[i] == Lower(s[1..])[i - 1];
    }
  }

  lemma {:induction false} LowerConcat(a: string, b: string)
    ensures Lower(a + b) == Lower(a) + Lower(b)
  {
    LowerAt(a + b);
    LowerAt(a);
    LowerAt(b);
    assert Lower(a + b) == Lower(a) + Lower(b);
  }

  /** `s` has no upper-case ASCII letter. */
  predicate NoUpper(s: string)
  {
    forall i :: 0 <= i < |s| ==> !('A' <= s[i] <= 'Z')
  }

  lemma LowerIdempotent(s: string)
    ensures Lower(Lower(s)) == Lower(s)
  {
    LowerAt(s);
    LowerAt(Lower(s));
  }

  /** The characters Python's `str.strip()` removes (those for which `isspace()` holds). */
  predicate IsSpace(c: char)
  {
    var n := c as int;
    (9 <= n <= 13) || (28 <= n <= 32) || n == 0x85 || n == 0xA0 || n == 0x1680
    || (0x2000 <= n <= 0x200A) || n == 0x2028 || n == 0x2029 || n == 0x202F
    || n == 0x205F || n == 0x3000
  }

  function TrimLeft(s: string): (r: string)
    ensures |r| <= |s| && r == s[|s| - |r|..]
    ensures r == [] || !IsSpace(r[0])
    ensures forall i :: 0 <= i < |s| - |r| ==> IsSpace(s[i])
  {
    if s == [] || !IsSpace(s[0]) then s else TrimLeft(s[1..])
  }

  function TrimRight(s: string): (r: string)
    ensures |r| <= |s| && r == s[..|r|]
    ensures r == [] || !IsSpace(r[|r| - 1])
    ensures forall i :: |r| <= i < |s| ==> IsSpace(s[i])
  {
    if s == [] || !IsSpace(s[|s| - 1]) then s else TrimRight(s[..|s| - 1])
  }

  predicate SliceAt(s: string, r: string, lo: int)
  {
    0 <= lo <= |s| - |r| && r == s[lo..lo + |r|]
  }

  /** `s.strip()`: the string without leading and trailing whitespace. */
  function Strip(s: string): (r: string)
    ensures r == [] || (!IsSpace(r[0]) && !IsSpace(r[|r| - 1]))
    ensures exists lo :: SliceAt(s, r, lo)
  {
    var l := TrimLeft(s);
    var r := TrimRight(l);
    assert SliceAt(s, r, |s| - |l|);
    r
  }

  predicate StartsWith(s: string, prefix: string)
  {
    |prefix| <= |s| && s[..|prefix|] == prefix
  }

  predicate MatchesAt(s: string, kw: string, i: int)
  {
    0 <= i <= |s| - |kw| && s[i..i + |kw|] == kw
  }

  lemma MatchesAtMiddle(a: string, kw: string, c: string)
    ensures MatchesAt(a + kw + c, kw, |a|)
  {
    assert (a + kw + c)[|a|..|a| + |kw|] == kw;
  }

  /** Python's `kw in s` on strings. */
  predicate Contains(s: string, kw: string)
  {
    exists i | 0 <= i <= |s| - |kw| :: MatchesAt(s, kw, i)
  }

  lemma NotContainsByChar(s: string, kw: string, c: char)
    requires c in kw && c !in s
    ensures !Contains(s, kw)
  {
  }

  /** The upper-case form of a lower-case ASCII letter. */
  function UpperChar(c: char): char
    requires 'a' <= c <= 'z'
  {
    (c as int - 32) as char
  }

  /** A match survives lower-casing. */
  lemma LowerMatchesAt(s: string, kw: string, i: int)
    requires MatchesAt(s, kw, i)
    ensures MatchesAt(Lower(s), Lower(kw), i)
  {
    LowerAt(s);
    LowerAt(kw);
    assert Lower(s)[i..i + |kw|] == Lower(kw);
  }

  /** A keyword without upper-case letters that occurs in `s` occurs at the same place in `Lower(s)`. */
  lemma LowerMatchesNoUpper(s: string, kw: string, i: int)
    requires MatchesAt(s, kw, i) && NoUpper(kw)
    ensures MatchesAt(Lower(s), kw, i)
  {
    LowerMatchesAt(s, kw, i);
    LowerAt(kw);
    assert Lower(kw) == kw;
  }

  /** The same for a capitalised word, which occurs in `Lower(s)` with its first letter lowered. */
  lemma LowerMatchesCapital(s: string, kw: string, i: int)
    requires MatchesAt(s, kw, i) && |kw| > 0 && NoUpper(kw[1..])
    ensures MatchesAt(Lower(s), [LowerChar(kw[0])] + kw[1..], i)
  {
    LowerMatchesAt(s, kw, i);
    LowerAt(kw);
    assert Lower(kw) == [LowerChar(kw[0])] + kw[1..];
  }

  /** Every character of `s` is one of `alpha`. */
  predicate Over(s: string, alpha: set<char>)
  {
    forall i :: 0 <= i < |s| ==> s[i] in alpha
  }

  /** A lower-case letter occurs in `Lower(s)` only if it or its upper-case form occurs in `s`. */
  lemma LowerLacks(s: string, alpha: set<char>, c: char)
    requires 'a' <= c <= 'z' && Over(s, alpha) && c !in alpha && UpperChar(c) !in alpha
    ensures c !in Lower(s)
  {
    LowerAt(s);
  }

  /** A keyword with a letter that `s` lacks in either case does not occur in `Lower(s)`. */
  lemma NotContainsLower(s: string, alpha: set<char>, kw: string, c: char)
    requires c in kw && 'a' <= c <= 'z' && Over(s, alpha) && c !in alpha && UpperChar(c) !in alpha
    ensures !Contains(Lower(s), kw)
  {
    LowerLacks(s, alpha, c);
    NotContainsByChar(Lower(s), kw, c);
  }

  /** The same, word by word: a keyword without spaces lies on one side of a space. */
  lemma NotContainsLowerSplit(a: string, alpha: set<char>, b: string, kw: string, c: char, e: char)
    requires ' ' !in kw
    requires c in kw && 'a' <= c <= 'z' && Over(a, alpha) && c !in alpha && UpperChar(c) !in alpha
    requires e in kw && 'a' <= e <= 'z' && e !in b && UpperChar(e) !in b
    ensures !Contains(Lower(a + [' '] + b), kw)
  {
    LowerConcat(a + [' '], b);
    LowerConcat(a, [' ']);
    assert Lower([' ']) == [' '];
    NotContainsLower(a, alpha, kw, c);
    NotContainsLower(b, set i | 0 <= i < |b| :: b[i], kw, e);
    if Contains(Lower(a + [' '] + b), kw) {
      ContainsSplit(Lower(a), ' ', Lower(b), kw);
    }
  }

  lemma ContainsLeft(a: string, b: string, kw: string)
    requires Contains(a, kw)
    ensures Contains(a + b, kw)
  {
    var i :| 0 <= i <= |a| - |kw| && MatchesAt(a, kw, i);
    assert (a + b)[i..i + |kw|] == a[i..i + |kw|];
    assert MatchesAt(a + b, kw, i);
  }

  lemma ContainsRight(a: string, b: string, kw: string)
    requires Contains(b, kw)
    ensures Contains(a + b, kw)
  {
    var i :| 0 <= i <= |b| - |kw| && MatchesAt(b, kw, i);
    assert (a + b)[|a| + i..|a| + i + |kw|] == b[i..i + |kw|];
    assert MatchesAt(a + b, kw, |a| + i);
  }

  lemma MatchedCharInKeyword(s: string, kw: string, i: int, p: int)
    requires MatchesAt(s, kw, i) && i <= p < i + |kw|
    ensures s[p] in kw
  {
    assert s[p] == s[i..i + |kw|][p - i];
  }

  /** A keyword free of the separator `c` lies on one side of it. */
  lemma ContainsSplit(a: string, c: char, b: string, kw: string)
    requires c !in kw
    requires Contains(a + [c] + b, kw)
    ensures Contains(a, kw) || Contains(b, kw)
  {
    var s := a + [c] + b;
    var i :| 0 <= i <= |s| - |kw| && MatchesAt(s, kw, i);
    if i <= |a| < i + |kw| {
      MatchedCharInKeyword(s, kw, i, |a|);
      assert false;
    }
    if i + |kw| <= |a| {
      assert s[i..i + |kw|] == a[i..i + |kw|];
      assert MatchesAt(a, kw, i);
    } else {
      assert s[i..i + |kw|] == b[i - |a| - 1..i - |a| - 1 + |kw|];
      assert MatchesAt(b, kw, i - |a| - 1);
    }
  }

  /** Decimal digits of a natural number, as Python's `str(n)`. */
  function NatToString(n: nat): (r: string)
    ensures |r| >= 1
    ensures forall i :: 0 <= i < |r| ==> '0' <= r[i] <= '9'
    decreases n
  {
    var d := [(('0' as int) + n % 10) as char];
    if n < 10 then d else NatToString(n / 10) + d
  }

  lemma {:induction false} NatToStringInjective(a: nat, b: nat)
    ensures NatToString(a) == NatToString(b) ==> a == b
    decreases a
  {
    if NatToString(a) == NatToString(b) {
      var sa, sb := NatToString(a), NatToString(b);
      if a >= 10 {
        assert |NatToString(a / 10)| >= 1;
      }
      if b >= 10 {
        assert |NatToString(b / 10)| >= 1;
      }
      assert sa[|sa| - 1] == sb[|sb| - 1];
      assert a % 10 == b % 10;
      if a >= 10 && b >= 10 {
        assert NatToString(a / 10) == sa[..|sa| - 1] == sb[..|sb| - 1] == NatToString(b / 10);
        NatToStringInjective(a / 10, b / 10);
      }
    }
  }

  /** `sep.join(parts)`. */
  function Join(parts: seq<string>, sep: string): (r: string)
    ensures |parts| == 1 ==> r == parts[0]
  {
    if |parts| == 0 then ""
    else if |parts| == 1 then parts[0]
    else parts[0] + sep + Join(parts[1..], sep)
  }

  /** Some keyword of `kws` occurs in `name`. */
  predicate HasKeyword(name: string, kws: seq<string>)
  {
    exists k :: 0 <= k < |kws| && Contains(name, kws[k])
  }

  /** The keyword scan of a name scorer, stopping at the first hit. */
  function AnyKeywordIn(name: string, kws: seq<string>): bool
  {
    if kws == [] then false
    else if Contains(name, kws[0]) then true
    else AnyKeywordIn(name, kws[1..])
  }

  lemma {:induction false} AnyKeywordInMeaning(name: string, kws: seq<string>)
    ensures AnyKeywordIn(name, kws) <==> HasKeyword(name, kws)
  {
    if kws != [] {
      AnyKeywordInMeaning(name, kws[1..]);
      if HasKeyword(name, kws[1..]) {
        var k :| 0 <= k < |kws[1..]| && Contains(name, kws[1..][k]);
        assert kws[k + 1] == kws[1..][k];
      }
      if HasKeyword(name, kws) && !Contains(name, kws[0]) {
        var k :| 0 <= k < |kws| && Contains(name, kws[k]);
        assert kws[1..][k - 1] == kws[k];
      }
    }
  }
}
