/**
  String helpers the selector builder relies on: Go's `strings.TrimSpace`
  and the decimal formatting `fmt.Sprintf("%v", n)` performs on a positive
  `int`.
 */
module Text {

  /** Go's `unicode.IsSpace`: the Unicode White_Space property. */
  predicate IsSpace(c: char) {
    || ('\U{0009}' <= c <= '\U{000D}')
    || c == ' '
    || c == '\U{0085}'
    || c == '\U{00A0}'
    || c == '\U{1680}'
    || ('\U{2000}' <= c <= '\U{200A}')
    || c == '\U{2028}'
    || c == '\U{2029}'
    || c == '\U{202F}'
    || c == '\U{205F}'
    || c == '\U{3000}'
  }

  /** Every character of `s` between `lo` (inclusive) and `hi` (exclusive) is white space. */
  predicate SpaceBetween(s: string, lo: int, hi: int) {
    forall m :: 0 <= lo <= m < hi <= |s| ==> IsSpace(s[m])
  }

  /** Every character of `s` is white space. */
  predicate AllSpace(s: string) {
    SpaceBetween(s, 0, |s|)
  }

  /** `s` neither starts nor ends with white space. */
  predicate NoEdgeSpace(s: string) {
    |s| == 0 || (!IsSpace(s[0]) && !IsSpace(s[|s| - 1]))
  }

  /** The index of the first character of `s` that is not white space (or `|s|`). */
  function SpaceStart(s: string): (k: nat)
    ensures k <= |s|
    ensures SpaceBetween(s, 0, k)
    ensures k < |s| ==> !IsSpace(s[k])
  {
    if |s| > 0 && IsSpace(s[0]) then 1 + SpaceStart(s[1..]) else 0
  }

  /**
    The end of `s[lo..hi]` once its trailing white space is dropped: the
    index just after the last non-space character at or after `lo`.
   */
  function SpaceStop(s: string, lo: nat, hi: nat): (j: nat)
    requires lo <= hi <= |s|
    ensures lo <= j <= hi
    ensures SpaceBetween(s, j, hi)
    ensures j > lo ==> !IsSpace(s[j - 1])
    decreases hi
  {
    if hi > lo && IsSpace(s[hi - 1]) then SpaceStop(s, lo, hi - 1) else hi
  }

  /**
    Go's `strings.TrimSpace`: the infix of `s` left after removing all
    leading and trailing white space.
   */
  function TrimSpace(s: string): (r: string)
    ensures |r| <= |s|
    ensures NoEdgeSpace(r)
  {
    var start := SpaceStart(s);
    s[start..SpaceStop(s, start, |s|)]
  }

  /** What `TrimSpace` removes is white space before and after the infix it keeps. */
  lemma TrimSpaceIsInfix(s: string)
    ensures exists i :: 0 <= i <= |s| - |TrimSpace(s)| && TrimSpace(s) == s[i..i + |TrimSpace(s)|]
                     && SpaceBetween(s, 0, i) && SpaceBetween(s, i + |TrimSpace(s)|, |s|)
  {
    var start := SpaceStart(s);
    var stop := SpaceStop(s, start, |s|);
    assert TrimSpace(s) == s[start..stop];
    assert SpaceBetween(s, stop, |s|);
  }

  /**
    `TrimSpace` is determined by its contract: any split of `s` into white
    space, a core without edge white space, and white space yields that core.
   */
  lemma TrimSpaceUnique(a: string, core: string, b: string)
    requires AllSpace(a) && AllSpace(b) && NoEdgeSpace(core)
    ensures TrimSpace(a + core + b) == core
  {
    var s := a + core + b;
    var start := SpaceStart(s);
    assert SpaceBetween(s, 0, |a|) by {
      forall m | 0 <= m < |a| ensures IsSpace(s[m]) { assert s[m] == a[m]; }
    }
    assert SpaceBetween(s, |a| + |core|, |s|) by {
      forall m | |a| + |core| <= m < |s| ensures IsSpace(s[m]) { assert s[m] == b[m - |a| - |core|]; }
    }
    if |core| == 0 {
      assert start == |s|;
    } else {
      assert s[|a|] == core[0];
      assert start == |a|;
      var stop := SpaceStop(s, start, |s|);
      assert s[|a| + |core| - 1] == core[|core| - 1];
      assert stop == |a| + |core|;
      assert s[start..stop] == core;
    }
  }

  /** A string without edge white space is left as it is. */
  lemma TrimSpaceKeepsClean(s: string)
    requires NoEdgeSpace(s)
    ensures TrimSpace(s) == s
  {
    TrimSpaceUnique([], s, []);
    assert [] + s + [] == s;
  }

  /** Trimming twice is trimming once. */
  lemma TrimSpaceIdempotent(s: string)
    ensures TrimSpace(TrimSpace(s)) == TrimSpace(s)
  {
    TrimSpaceKeepsClean(TrimSpace(s));
  }

  /** A string of white space only trims to the empty string. */
  lemma TrimSpaceOfSpace(s: string)
    requires AllSpace(s)
    ensures TrimSpace(s) == ""
  {
    TrimSpaceUnique(s, [], []);
    assert s + [] + [] == s;
  }

  /** `t` is a suffix of `s`. */
  predicate EndsWith(s: string, t: string) {
    |t| <= |s| && s[|s| - |t|..] == t
  }

  // ---------------------------------------------------------------------
  // Decimal formatting

  predicate IsDigit(c: char) {
    '0' <= c <= '9'
  }

  function DigitChar(d: nat): (c: char)
    requires d < 10
    ensures IsDigit(c) && c as int - '0' as int == d
  {
    ('0' as int + d) as char
  }

  function DigitValue(c: char): (d: nat)
    requires IsDigit(c)
    ensures d < 10 && DigitChar(d) == c
  {
    c as int - '0' as int
  }

  /** A canonical decimal numeral: digits only, no leading zero unless it is "0". */
  predicate IsCanonicalDecimal(s: string) {
    && |s| > 0
    && (forall i :: 0 <= i < |s| ==> IsDigit(s[i]))
    && (|s| > 1 ==> s[0] != '0')
  }

  /** The value of a string of decimal digits, read most significant first. */
  function ParseDecimal(s: string): nat
    requires forall i :: 0 <= i < |s| ==> IsDigit(s[i])
  {
    if |s| == 0 then 0
    else ParseDecimal(s[..|s| - 1]) * 10 + DigitValue(s[|s| - 1])
  }

  /** Go's `%v` formatting of a non-negative integer. */
  function Decimal(n: nat): (s: string)
    ensures IsCanonicalDecimal(s)
    ensures ParseDecimal(s) == n
  {
    if n < 10 then [DigitChar(n)]
    else
      var s := Decimal(n / 10) + [DigitChar(n % 10)];
      assert s[..|s| - 1] == Decimal(n / 10);
      s
  }

  lemma {:induction false} ParsePositive(s: string)
    requires IsCanonicalDecimal(s) && s[0] != '0'
    ensures ParseDecimal(s) >= 1
    decreases |s|
  {
    if |s| > 1 {
      var p := s[..|s| - 1];
      assert p[0] == s[0];
      ParsePositive(p);
    }
  }

  /** Every canonical numeral is what `Decimal` prints for its value. */
  lemma {:induction false} DecimalOfParse(s: string)
    requires IsCanonicalDecimal(s)
    ensures Decimal(ParseDecimal(s)) == s
    decreases |s|
  {
    if |s| > 1 {
      var p := s[..|s| - 1];
      var d := DigitValue(s[|s| - 1]);
      assert p[0] == s[0];
      ParsePositive(p);
      DecimalOfParse(p);
      var n := ParseDecimal(s);
      assert n == ParseDecimal(p) * 10 + d;
      assert n / 10 == ParseDecimal(p) && n % 10 == d;
      assert s == p + [s[|s| - 1]];
    }
  }

  /** Distinct numbers print as distinct numerals. */
  lemma DecimalInjective(m: nat, n: nat)
    requires Decimal(m) == Decimal(n)
    ensures m == n
  {
  }
}
