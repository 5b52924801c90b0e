/**
  String helpers the JavaScript source gets from its runtime: `startsWith`,
  `endsWith`, `trim`, `Array.prototype.join`, number-to-decimal conversion and
  `String.prototype.replace` with a one-character pattern (first occurrence only),
  and the subsequence order that `Array.prototype.filter` keeps.
  Strings are sequences of Unicode scalar values.
*/
module Strings {

  predicate StartsWith(s: string, prefix: string) {
    |prefix| <= |s| && s[..|prefix|] == prefix
  }

  predicate EndsWith(s: string, suffix: string) {
    |suffix| <= |s| && s[|s| - |suffix|..] == suffix
  }

  /** `s` is `t` with some elements left out, the rest in their order. */
  predicate IsSubsequence<T(==)>(s: seq<T>, t: seq<T>)
    decreases |t|
  {
    s == [] || (t != [] && ((s[0] == t[0] && IsSubsequence(s[1..], t[1..])) || IsSubsequence(s, t[1..])))
  }

  /** A prefix test survives extending the string on the right. */
  /** A prefix of a prefix is a prefix. */
  lemma StartsWithTransitive(s: string, q: string, p: string)
    requires StartsWith(s, q) && StartsWith(q, p)
    ensures StartsWith(s, p)
  {
    assert s[..|p|] == s[..|q|][..|p|];
  }

  /** A string is a prefix of itself followed by anything. */
  lemma StartsWithAppend(s: string, t: string)
    ensures StartsWith(s + t, s)
  {
    assert (s + t)[..|s|] == s;
  }

  lemma StartsWithExtend(s: string, t: string, prefix: string)
    requires |prefix| <= |s|
    ensures StartsWith(s + t, prefix) <==> StartsWith(s, prefix)
  {
    assert (s + t)[..|prefix|] == s[..|prefix|];
  }

  /**
    The characters `String.prototype.trim` removes: the WhiteSpace and
    LineTerminator productions of ECMAScript. TAB, LF, VT, FF and CR are
    U+0009 to U+000D; then SP, NBSP, OGHAM SPACE MARK, the spaces U+2000 to
    U+200A, LS, PS, NNBSP, MMSP, IDEOGRAPHIC SPACE and ZWNBSP.
  */
  predicate IsJsSpace(c: char) {
    || ('\t' <= c <= '\r') || c == ' ' || c == '\U{00A0}' || c == '\U{1680}'
    || ('\U{2000}' <= c <= '\U{200A}') || c == '\U{2028}' || c == '\U{2029}'
    || c == '\U{202F}' || c == '\U{205F}' || c == '\U{3000}' || c == '\U{FEFF}'
  }

  predicate AllSpace(s: string) {
    forall i :: 0 <= i < |s| ==> IsJsSpace(s[i])
  }

  /** Two runs of spaces make one. */
  lemma SpacesJoin(a: string, b: string)
    requires AllSpace(a) && AllSpace(b)
    ensures AllSpace(a + b)
  {
    forall i | 0 <= i < |a + b| ensures IsJsSpace((a + b)[i]) {
      if i < |a| {
        assert (a + b)[i] == a[i];
      } else {
        assert (a + b)[i] == b[i - |a|];
      }
    }
  }

  /** A suffix of `s[1..]` after spaces is a suffix of `s` after spaces when `s` starts with a space. */
  lemma LeadingSpaceCut(s: string, r: string)
    requires |s| > 0 && IsJsSpace(s[0])
    requires |r| <= |s| - 1 && r == s[1..][|s| - 1 - |r|..] && AllSpace(s[1..][..|s| - 1 - |r|])
    ensures r == s[|s| - |r|..] && AllSpace(s[..|s| - |r|])
  {
    var cut := s[1..][..|s| - 1 - |r|];
    assert s[..|s| - |r|] == [s[0]] + cut;
    assert s[1..][|s| - 1 - |r|..] == s[|s| - |r|..];
    SpacesJoin([s[0]], cut);
  }

  /** A prefix of `s` without its last character before spaces is a prefix of `s` before spaces when `s` ends with a space. */
  lemma TrailingSpaceCut(s: string, r: string)
    requires |s| > 0 && IsJsSpace(s[|s| - 1])
    requires |r| <= |s| - 1 && r == s[..|s| - 1][..|r|] && AllSpace(s[..|s| - 1][|r|..])
    ensures r == s[..|r|] && AllSpace(s[|r|..])
  {
    var cut := s[..|s| - 1][|r|..];
    assert s[|r|..] == cut + [s[|s| - 1]];
    assert s[..|s| - 1][..|r|] == s[..|r|];
    SpacesJoin(cut, [s[|s| - 1]]);
  }

  /** The string without its leading spaces. */
  function TrimStart(s: string): (r: string)
    ensures |r| <= |s| && r == s[|s| - |r|..]
    ensures AllSpace(s[..|s| - |r|])
    ensures r != [] ==> !IsJsSpace(r[0])
  {
    if |s| > 0 && IsJsSpace(s[0]) then
      var r := TrimStart(s[1..]);
      LeadingSpaceCut(s, r);
      r
    else
      assert s[..|s| - |s|] == [];
      s
  }

  /** The string without its trailing spaces. */
  function TrimEnd(s: string): (r: string)
    ensures |r| <= |s| && r == s[..|r|]
    ensures AllSpace(s[|r|..])
    ensures r != [] ==> !IsJsSpace(r[|r| - 1])
  {
    if |s| > 0 && IsJsSpace(s[|s| - 1]) then
      var r := TrimEnd(s[..|s| - 1]);
      TrailingSpaceCut(s, r);
      r
    else s
  }

  /** Where `Trim(s)` starts inside `s`. */
  function TrimOffset(s: string): (k: nat)
    ensures k <= |s|
  {
    |s| - |TrimStart(s)|
  }

  /**
    `String.prototype.trim`: `s` without its leading and trailing spaces. It is
    empty exactly when `s` is all spaces, and otherwise starts and ends with a
    non-space; `TrimIsInfix` says where it sits inside `s`.
  */
  function Trim(s: string): (r: string)
    ensures r == [] <==> AllSpace(s)
    ensures r != [] ==> !IsJsSpace(r[0]) && !IsJsSpace(r[|r| - 1])
  {
    var t := TrimStart(s);
    var r := TrimEnd(t);
    TrimEmptyIffAllSpace(s, t, r);
    r
  }

  lemma TrimEmptyIffAllSpace(s: string, t: string, r: string)
    requires t == TrimStart(s) && r == TrimEnd(t)
    ensures r == [] <==> AllSpace(s)
  {
    var k := |s| - |t|;
    assert t == s[k..] && AllSpace(s[..k]);
    if r == [] {
      // `t` is all spaces but cannot start with one, so it is empty.
      assert t[|r|..] == t;
      assert t == [];
      assert s[..k] == s;
    } else {
      assert r == t[..|r|];
      assert s[k] == t[0] == r[0];
    }
  }

  /** What `Trim` cut from either side of `s` is all spaces. */
  lemma TrimIsInfix(s: string)
    ensures TrimOffset(s) + |Trim(s)| <= |s|
    ensures Trim(s) == s[TrimOffset(s)..TrimOffset(s) + |Trim(s)|]
    ensures AllSpace(s[..TrimOffset(s)]) && AllSpace(s[TrimOffset(s) + |Trim(s)|..])
  {
    TrimStartCut(s);
    TrimEndCut(s);
    SpacesAround(s, TrimStart(s), Trim(s), TrimOffset(s));
  }

  /** `TrimStart` drops the first `TrimOffset` characters, all spaces. */
  lemma TrimStartCut(s: string)
    ensures TrimOffset(s) <= |s| && TrimStart(s) == s[TrimOffset(s)..] && AllSpace(s[..TrimOffset(s)])
  {
  }

  /** `Trim` is `TrimStart` with trailing spaces dropped. */
  lemma TrimEndCut(s: string)
    ensures |Trim(s)| <= |TrimStart(s)| && Trim(s) == TrimStart(s)[..|Trim(s)|] && AllSpace(TrimStart(s)[|Trim(s)|..])
  {
    assert Trim(s) == TrimEnd(TrimStart(s));
  }

  /**
    When `s` is spaces up to `k` and then `t`, and `t` is `r` followed by
    spaces, `r` sits at `k` in `s` with only spaces after it.
  */
  lemma SpacesAround(s: string, t: string, r: string, k: nat)
    requires k <= |s| && t == s[k..] && AllSpace(s[..k])
    requires |r| <= |t| && r == t[..|r|] && AllSpace(t[|r|..])
    ensures k + |r| <= |s| && r == s[k..k + |r|]
    ensures AllSpace(s[..k]) && AllSpace(s[k + |r|..])
  {
    assert s[k + |r|..] == t[|r|..];
  }

  /** Trimming twice is trimming once. */
  lemma {:induction false} TrimIdempotent(s: string)
    ensures Trim(Trim(s)) == Trim(s)
  {
    var r := Trim(s);
    if r != [] {
      TrimStartStops(r);
      assert TrimStart(r) == r;
    }
  }

  lemma TrimStartStops(s: string)
    requires s != [] && !IsJsSpace(s[0])
    ensures TrimStart(s) == s
  {
  }

  lemma TrimEndStops(s: string)
    requires s != [] && !IsJsSpace(s[|s| - 1])
    ensures TrimEnd(s) == s
  {
  }

  /** `Array.prototype.join`: the parts in order, `sep` between neighbours. */
  function Join(parts: seq<string>, sep: string): (r: string)
    ensures |parts| == 0 ==> r == ""
    ensures |parts| == 1 ==> r == parts[0]
    ensures |parts| >= 1 ==> StartsWith(r, parts[0])
  {
    if |parts| == 0 then ""
    else if |parts| == 1 then parts[0]
    else parts[0] + sep + Join(parts[1..], sep)
  }

  function DigitChar(d: nat): (c: char)
    requires d < 10
    ensures '0' <= c <= '9'
  {
    ('0' as int + d) as char
  }

  function DigitValue(c: char): (d: nat)
    requires '0' <= c <= '9'
    ensures d < 10 && DigitChar(d) == c
  {
    (c as int - '0' as int)
  }

  /** Decimal rendering of a natural number, as JavaScript's `String(n)` writes it. */
  function NatToString(n: nat): (r: string)
    ensures |r| >= 1
    ensures forall i :: 0 <= i < |r| ==> '0' <= r[i] <= '9'
    ensures r[0] == '0' ==> n == 0
    decreases n
  {
    if n < 10 then [DigitChar(n)] else NatToString(n / 10) + [DigitChar(n % 10)]
  }

  /** The value of a string of decimal digits. */
  function DecimalValue(s: string): nat
    requires forall i :: 0 <= i < |s| ==> '0' <= s[i] <= '9'
  {
    if s == [] then 0 else 10 * DecimalValue(s[..|s| - 1]) + DigitValue(s[|s| - 1])
  }

  /** Reading the decimal rendering back gives the number. */
  lemma {:induction false} NatToStringRoundTrip(n: nat)
    ensures DecimalValue(NatToString(n)) == n
    decreases n
  {
    var r := NatToString(n);
    if n < 10 {
      assert r[..0] == [];
    } else {
      NatToStringRoundTrip(n / 10);
      assert r[..|r| - 1] == NatToString(n / 10);
    }
  }

  /** Index of the first occurrence of `c` in `s`. */
  function IndexOf(s: string, c: char): (i: nat)
    requires c in s
    ensures i < |s| && s[i] == c && c !in s[..i]
  {
    if s[0] == c then 0 else 1 + IndexOf(s[1..], c)
  }

  /** `s.replace(c, "")` for a one-character string pattern: only the first occurrence goes. */
  function RemoveFirst(s: string, c: char): string {
    if c in s then s[..IndexOf(s, c)] + s[IndexOf(s, c) + 1..] else s
  }

  lemma IndexOfAfterPrefix(p: string, c: char, t: string)
    requires c !in p
    ensures c in p + [c] + t && IndexOf(p + [c] + t, c) == |p|
  {
    if p != [] {
      assert (p + [c] + t)[1..] == p[1..] + [c] + t;
      IndexOfAfterPrefix(p[1..], c, t);
    }
  }

  /** `s.split(c)` for a one-character separator: the pieces between occurrences of `c`. */
  function Split(s: string, c: char): (parts: seq<string>)
    ensures |parts| >= 1
    ensures forall i :: 0 <= i < |parts| ==> c !in parts[i]
    decreases |s|
  {
    if c !in s then [s]
    else [s[..IndexOf(s, c)]] + Split(s[IndexOf(s, c) + 1..], c)
  }

  /** Splitting a join on the same separator gives the parts back when none contains it. */
  lemma {:induction false} SplitJoin(parts: seq<string>, c: char)
    requires |parts| >= 1
    requires forall i :: 0 <= i < |parts| ==> c !in parts[i]
    ensures Split(Join(parts, [c]), c) == parts
  {
    if |parts| > 1 {
      var rest := Join(parts[1..], [c]);
      assert Join(parts, [c]) == parts[0] + [c] + rest;
      SplitAtFirst(parts[0], c, rest);
      forall i | 0 <= i < |parts[1..]| ensures c !in parts[1..][i] {
        assert parts[1..][i] == parts[i + 1];
      }
      SplitJoin(parts[1..], c);
      assert parts == [parts[0]] + parts[1..];
    }
  }

  /** Splitting at a first separator that follows a separator-free head gives the head, then the rest split. */
  lemma SplitAtFirst(p: string, c: char, t: string)
    requires c !in p
    ensures Split(p + [c] + t, c) == [p] + Split(t, c)
  {
    var j := p + [c] + t;
    IndexOfAfterPrefix(p, c, t);
    assert j[..|p|] == p;
    assert j[|p| + 1..] == t;
  }


  /** A string that starts with a non-space is not blank. */
  lemma TrimNonBlank(s: string)
    requires s != [] && !IsJsSpace(s[0])
    ensures Trim(s) != ""
  {
    assert !AllSpace(s);
  }

  /** A string that starts with a non-blank string is non-blank. */
  lemma NonBlankExtended(s: string, t: string)
    requires Trim(s) != "" && StartsWith(t, s)
    ensures Trim(t) != ""
  {
    var i :| 0 <= i < |s| && !IsJsSpace(s[i]);
    assert t[i] == t[..|s|][i];
  }

  /** A string without leading or trailing space trims to itself. */
  lemma TrimUnpadded(s: string)
    requires s != [] && !IsJsSpace(s[0]) && !IsJsSpace(s[|s| - 1])
    ensures Trim(s) == s
  {
    TrimStartStops(s);
    TrimEndStops(s);
  }

  /** Removing a character introduces no new one. */
  lemma RemoveFirstKeeps(s: string, c: char, x: char)
    requires x !in s
    ensures x !in RemoveFirst(s, c)
  {
    if c in s {
      var k := IndexOf(s, c);
      assert RemoveFirst(s, c) == s[..k] + s[k + 1..];
      assert forall y :: y in s[..k] + s[k + 1..] ==> y in s;
    }
  }
}
