/**
 * Python's `float(token)` on a string, as a partial function: the token is
 * stripped of whitespace and must then be a decimal literal with an optional
 * sign, fraction and exponent. Values are exact rationals. The literal is
 * read by offsets into one string, the way a scanner reads it.
 */
module Numbers {
  import opened Wrappers
  import opened Text

  predicate IsDigit(c: char) {
    '0' <= c <= '9'
  }

  /** The end of the run of digits in `s` that starts at offset `i`. */
  function DigitsEnd(s: string, i: nat): (j: nat)
    requires i <= |s|
    ensures i <= j <= |s|
    ensures j == |s| || !IsDigit(s[j])
    decreases |s| - i
  {
    if i < |s| && IsDigit(s[i]) then DigitsEnd(s, i + 1) else i
  }

  /** The value of the decimal digits `s[i..j]`, most significant first. */
  function DigitsValue(s: string, i: nat, j: nat): int
    requires i <= j <= |s|
    decreases j - i
  {
    if i == j then 0 else 10 * DigitsValue(s, i, j - 1) + (s[j - 1] as int - '0' as int)
  }

  /** `m * 10^e` for a possibly negative exponent `e`, one factor of ten at a time. */
  function Scale(m: real, e: int): real
    decreases if e < 0 then -e else e
  {
    if e == 0 then m
    else if e > 0 then 10.0 * Scale(m, e - 1)
    else Scale(m, e + 1) / 10.0
  }

  /**
   * The exponent written in `s[i..j]`: nothing at all (zero), or `e`/`E`, an
   * optional sign and one or more digits that run exactly up to `j`.
   */
  function ExponentValue(s: string, i: nat, j: nat): Option<int>
    requires i <= j <= |s|
  {
    if i == j then Some(0)
    else if s[i] != 'e' && s[i] != 'E' then None
    else
      var d := if i + 1 < j && (s[i + 1] == '+' || s[i + 1] == '-') then i + 2 else i + 1;
      if d < j && DigitsEnd(s, d) == j then
        Some(if s[i + 1] == '-' then -DigitsValue(s, d, j) else DigitsValue(s, d, j))
      else None
  }

  /**
   * A stripped float literal: an optional `+` or `-`, digits with an optional
   * point and fraction (at least one digit on either side of the point), then
   * an optional exponent, with nothing after it.
   */
  function ParseDecimal(s: string): Option<real> {
    var i := if s != [] && (s[0] == '+' || s[0] == '-') then 1 else 0;
    var a := DigitsEnd(s, i);
    var point := a < |s| && s[a] == '.';
    var f := if point then DigitsEnd(s, a + 1) else a;
    var fracLen := if point then f - a - 1 else 0;
    if a == i && fracLen == 0 then None
    else
      match ExponentValue(s, f, |s|)
      case None => None
      case Some(e) =>
        var mantissa := Scale(DigitsValue(s, i, a) as real, fracLen)
          + (if point then DigitsValue(s, a + 1, f) as real else 0.0);
        var x := Scale(mantissa, e - fracLen);
        Some(if i == 1 && s[0] == '-' then -x else x)
  }

  /** `float(token)`: `None` where Python raises `ValueError`. */
  function ParseFloat(token: string): Option<real> {
    ParseDecimal(StripBy(token, FloatSpaces))
  }

  /** `10^k` as a real. */
  function Pow10(k: nat): (p: real)
    ensures p >= 1.0
  {
    if k == 0 then 1.0 else 10.0 * Pow10(k - 1)
  }

  /** Scaling up by `k` decimal places multiplies by `10^k`. */
  lemma {:induction false} ScaleUp(m: real, k: nat)
    ensures Scale(m, k) == m * Pow10(k)
  {
    if k > 0 {
      ScaleUp(m, k - 1);
    }
  }

  /** Scaling down by `k` decimal places divides by `10^k`. */
  lemma {:induction false} ScaleDown(m: real, k: nat)
    ensures Scale(m, -(k as int)) == m / Pow10(k)
  {
    if k > 0 {
      ScaleDown(m, k - 1);
      assert Scale(m, -(k as int)) == Scale(m, -((k - 1) as int)) / 10.0;
    }
  }

  /** A run of digits from `i` to `m` followed by a non-digit (or the end) ends at `m`. */
  lemma {:induction false} DigitsEndAt(s: string, i: nat, m: nat)
    requires i <= m <= |s|
    requires forall k :: i <= k < m ==> IsDigit(s[k])
    requires m == |s| || !IsDigit(s[m])
    ensures DigitsEnd(s, i) == m
    decreases m - i
  {
    if i < m {
      DigitsEndAt(s, i + 1, m);
    }
  }

  /** The decimal digits of `n`, as `str(n)` writes them. */
  function NatText(n: nat): (s: string)
    ensures s != [] && forall k :: 0 <= k < |s| ==> IsDigit(s[k])
  {
    var d := ['0' + (n % 10) as char];
    if n < 10 then d else NatText(n / 10) + d
  }

  /** Every offset from `i` on holds a digit exactly when the run from `i` reaches the end. */
  lemma {:induction false} DigitsToEnd(s: string, i: nat)
    requires i <= |s|
    ensures DigitsEnd(s, i) == |s| <==> forall k :: i <= k < |s| ==> IsDigit(s[k])
    decreases |s| - i
  {
    if i < |s| {
      DigitsToEnd(s, i + 1);
    }
  }

  /** The digits of a run keep their value when other text is put in front of them. */
  lemma {:induction false} DigitsValueShift(p: string, s: string, j: nat)
    requires j <= |s|
    ensures DigitsValue(p + s, |p|, |p| + j) == DigitsValue(s, 0, j)
    decreases j
  {
    if j > 0 {
      DigitsValueShift(p, s, j - 1);
      assert (p + s)[|p| + j - 1] == s[j - 1];
    }
  }

  /** The digits of a run keep their value when other text is put after them. */
  lemma {:induction false} DigitsValuePrefix(s: string, t: string, j: nat)
    requires j <= |s|
    ensures DigitsValue(s + t, 0, j) == DigitsValue(s, 0, j)
    decreases j
  {
    if j > 0 {
      DigitsValuePrefix(s, t, j - 1);
    }
  }

  /** `str(n)` read back as digits is `n`. */
  lemma {:induction false} NatTextValue(n: nat)
    ensures DigitsValue(NatText(n), 0, |NatText(n)|) == n
  {
    if n >= 10 {
      var s := NatText(n / 10);
      var d := ['0' + (n % 10) as char];
      NatTextValue(n / 10);
      DigitsValuePrefix(s, d, |s|);
      assert NatText(n) == s + d;
    }
  }

  /** A nonempty string of digits, after an optional sign, is read as its decimal value. */
  lemma DigitsParse(s: string, i: nat)
    requires i <= 1 && i < |s|
    requires i == 1 ==> s[0] == '+' || s[0] == '-'
    requires forall k :: i <= k < |s| ==> IsDigit(s[k])
    ensures ParseDecimal(s) == Some(
      if i == 1 && s[0] == '-' then -(DigitsValue(s, 1, |s|) as real) else DigitsValue(s, i, |s|) as real)
  {
    DigitsToEnd(s, i);
    if i == 0 {
      assert !(s[0] == '+' || s[0] == '-') by { assert IsDigit(s[0]); }
    }
  }

  /** `float(str(n))` gives `n` back, for every natural number. */
  lemma ParseNatText(n: nat)
    ensures ParseFloat(NatText(n)) == Some(n as real)
  {
    var s := NatText(n);
    NatTextValue(n);
    assert IsDigit(s[0]) && IsDigit(s[|s| - 1]);
    StripUnchanged(s, FloatSpaces);
    DigitsParse(s, 0);
  }

  /** `float('-' + str(n))` gives `-n` back, for every natural number. */
  lemma ParseNegatedNatText(n: nat)
    ensures ParseFloat(['-'] + NatText(n)) == Some(-(n as real))
  {
    var s := NatText(n);
    var t := ['-'] + s;
    NatTextValue(n);
    DigitsValueShift(['-'], s, |s|);
    assert IsDigit(t[|t| - 1]);
    StripUnchanged(t, FloatSpaces);
    DigitsParse(t, 1);
  }

  /** Adding a fraction to a whole number scaled up and scaling back down. */
  lemma ShiftBack(x: real, y: real, p: real)
    requires p >= 1.0
    ensures (x * p + y) / p == x + y / p
  {
    assert x * p / p == x;
    assert (x * p + y) / p == x * p / p + y / p;
  }

  /**
   * A literal that is digits up to offset `m`, a point there, and digits
   * after it: the whole part plus the fraction.
   */
  lemma PointLiteral(s: string, m: nat)
    requires 0 < m < |s| && s[m] == '.'
    requires forall k :: 0 <= k < |s| && k != m ==> IsDigit(s[k])
    ensures ParseDecimal(s) == Some(DigitsValue(s, 0, m) as real
      + DigitsValue(s, m + 1, |s|) as real / Pow10(|s| - m - 1))
  {
    assert IsDigit(s[0]) && !IsDigit(s[m]);
    DigitsEndAt(s, 0, m);
    DigitsEndAt(s, m + 1, |s|);
    var k := |s| - m - 1;
    var x := DigitsValue(s, 0, m) as real;
    var y := DigitsValue(s, m + 1, |s|) as real;
    assert ExponentValue(s, |s|, |s|) == Some(0);
    assert ParseDecimal(s) == Some(Scale(Scale(x, k) + y, 0 - k));
    ScaleFraction(x, y, k);
  }

  /** Scaling a whole part up by `k` places, adding digits, and scaling back down. */
  lemma ScaleFraction(x: real, y: real, k: nat)
    ensures Scale(Scale(x, k) + y, -(k as int)) == x + y / Pow10(k)
  {
    var p := Pow10(k);
    ScaleUp(x, k);
    assert Scale(x, k) + y == x * p + y;
    ScaleDown(x * p + y, k);
    ShiftBack(x, y, p);
  }

  /** `s` is `n`, a point, then `d`. */
  predicate PointLayout(s: string, n: string, d: string) {
    |s| == |n| + 1 + |d| && s[..|n|] == n && s[|n|] == '.' && s[|n| + 1..] == d
  }

  /** The text `n + "." + d` has that layout. */
  lemma JoinedLayout(n: string, d: string)
    ensures PointLayout(n + "." + d, n, d)
  {
    var s := n + "." + d;
    assert s[..|n|] == n && s[|n| + 1..] == d;
  }

  /** Digits, a point and digits: the whole part plus the fraction, as `float()` reads them. */
  lemma PointText(n: string, d: string, s: string)
    requires n != [] && forall k :: 0 <= k < |n| ==> IsDigit(n[k])
    requires forall k :: 0 <= k < |d| ==> IsDigit(d[k])
    requires PointLayout(s, n, d)
    ensures ParseFloat(s) == Some(DigitsValue(n, 0, |n|) as real + DigitsValue(d, 0, |d|) as real / Pow10(|d|))
  {
    PointTextFacts(n, d, s);
    PointTextValue(s, |n|, DigitsValue(n, 0, |n|), DigitsValue(d, 0, |d|), |d|);
  }

  /** Where the point of `n + "." + d` is, and what its two runs of digits are worth. */
  lemma PointTextFacts(n: string, d: string, s: string)
    requires n != [] && forall k :: 0 <= k < |n| ==> IsDigit(n[k])
    requires forall k :: 0 <= k < |d| ==> IsDigit(d[k])
    requires PointLayout(s, n, d)
    ensures 0 < |n| < |s| && s[|n|] == '.' && |d| == |s| - |n| - 1
    ensures forall j :: 0 <= j < |s| && j != |n| ==> IsDigit(s[j])
    ensures DigitsValue(s, 0, |n|) == DigitsValue(n, 0, |n|)
    ensures DigitsValue(s, |n| + 1, |s|) == DigitsValue(d, 0, |d|)
  {
    assert s == n + "." + d by {
      assert s == s[..|n|] + [s[|n|]] + s[|n| + 1..];
    }
    PointTextLayout(n, d, s);
    PointTextDigits(n, d);
  }

  /** A digit token with its point at offset `m`, given the values of its two runs of digits. */
  lemma PointTextValue(s: string, m: nat, x: int, y: int, k: nat)
    requires 0 < m < |s| && s[m] == '.' && k == |s| - m - 1
    requires forall j :: 0 <= j < |s| && j != m ==> IsDigit(s[j])
    requires DigitsValue(s, 0, m) == x && DigitsValue(s, m + 1, |s|) == y
    ensures ParseFloat(s) == Some(x as real + y as real / Pow10(k))
  {
    PointToken(s, m);
  }

  /** `n + "." + d` holds its point at offset `|n|` and digits everywhere else. */
  lemma PointTextLayout(n: string, d: string, s: string)
    requires forall k :: 0 <= k < |n| ==> IsDigit(n[k])
    requires forall k :: 0 <= k < |d| ==> IsDigit(d[k])
    requires s == n + "." + d
    ensures |s| == |n| + 1 + |d| && s[|n|] == '.'
    ensures forall k :: 0 <= k < |s| && k != |n| ==> IsDigit(s[k])
  {
    forall k | 0 <= k < |s| && k != |n| ensures IsDigit(s[k]) {
      if k < |n| { assert s[k] == n[k]; } else { assert s[k] == d[k - |n| - 1]; }
    }
  }

  /** The two runs of digits of `n + "." + d`, read in place, are those of `n` and of `d`. */
  lemma PointTextDigits(n: string, d: string)
    ensures var s := n + "." + d;
      && DigitsValue(s, 0, |n|) == DigitsValue(n, 0, |n|)
      && DigitsValue(s, |n| + 1, |s|) == DigitsValue(d, 0, |d|)
  {
    var dot := n + ".";
    var s := dot + d;
    assert |dot| == |n| + 1 && |s| == |dot| + |d|;
    DigitsValuePrefix(n, ".", |n|);
    DigitsValuePrefix(dot, d, |n|);
    DigitsValueShift(dot, d, |d|);
  }

  /**
   * `float(str(a) + '.' + d)` for a string of digits `d` (possibly empty) is
   * `a` plus the fraction that `d` writes.
   */
  lemma DecimalFraction(a: nat, d: string, s: string)
    requires forall k :: 0 <= k < |d| ==> IsDigit(d[k])
    requires PointLayout(s, NatText(a), d)
    ensures ParseFloat(s) == Some(a as real + DigitsValue(d, 0, |d|) as real / Pow10(|d|))
  {
    NatTextValue(a);
    PointText(NatText(a), d, s);
  }

  /** A token of digits with one point inside, as `float()` reads it. */
  lemma PointToken(token: string, m: nat)
    requires 0 < m < |token| && token[m] == '.'
    requires forall k :: 0 <= k < |token| && k != m ==> IsDigit(token[k])
    ensures ParseFloat(token) == Some(DigitsValue(token, 0, m) as real
      + DigitsValue(token, m + 1, |token|) as real / Pow10(|token| - m - 1))
  {
    assert IsDigit(token[0]);
    assert !IsSpaceIn(token[|token| - 1], FloatSpaces) by {
      if m < |token| - 1 { assert IsDigit(token[|token| - 1]); }
    }
    StripUnchanged(token, FloatSpaces);
    PointLiteral(token, m);
  }

  /** The decimal literals of the device's sample lines, as `float()` reads them. */
  lemma FourPointEightyFive(token: string)
    requires token == "4.85"
    ensures ParseFloat(token) == Some(4.85)
  {
    PointToken(token, 1);
    assert DigitsValue(token, 0, 1) == 4;
    assert DigitsValue(token, 2, 4) == 85;
    assert Pow10(2) == 100.0;
  }

  lemma OnePointTwentyThree(token: string)
    requires token == "1.23"
    ensures ParseFloat(token) == Some(1.23)
  {
    PointToken(token, 1);
    assert DigitsValue(token, 0, 1) == 1;
    assert DigitsValue(token, 2, 4) == 23;
    assert Pow10(2) == 100.0;
  }

  lemma TwentyFourPointFive(token: string)
    requires token == "24.5"
    ensures ParseFloat(token) == Some(24.5)
  {
    PointToken(token, 2);
    assert DigitsValue(token, 0, 2) == 24;
    assert DigitsValue(token, 3, 4) == 5;
    assert Pow10(1) == 10.0;
  }

  lemma ThreePointThree(token: string)
    requires token == "3.3"
    ensures ParseFloat(token) == Some(3.3)
  {
    PointToken(token, 1);
    assert DigitsValue(token, 0, 1) == 3;
    assert DigitsValue(token, 2, 3) == 3;
    assert Pow10(1) == 10.0;
  }

  lemma ZeroPointFive(token: string)
    requires token == "0.5"
    ensures ParseFloat(token) == Some(0.5)
  {
    PointToken(token, 1);
    assert DigitsValue(token, 0, 1) == 0;
    assert DigitsValue(token, 2, 3) == 5;
    assert Pow10(1) == 10.0;
  }

  lemma TwentyOnePointZero(token: string)
    requires token == "21.0"
    ensures ParseFloat(token) == Some(21.0)
  {
    PointToken(token, 2);
    assert DigitsValue(token, 0, 2) == 21;
    assert DigitsValue(token, 3, 4) == 0;
    assert Pow10(1) == 10.0;
  }

  /** A token with no digit at all is never a number. */
  lemma NoDigitNoNumber(token: string)
    requires forall k :: 0 <= k < |token| ==> !IsDigit(token[k])
    ensures ParseFloat(token) == None
  {
    var s := StripBy(token, FloatSpaces);
    var lead := SkipSpace(token, 0, FloatSpaces);
    assert forall k :: 0 <= k < |s| ==> !IsDigit(s[k]) by {
      forall k | 0 <= k < |s| ensures !IsDigit(s[k]) {
        assert s[k] == token[lead + k];
      }
    }
    var i := if s != [] && (s[0] == '+' || s[0] == '-') then 1 else 0;
    assert DigitsEnd(s, i) == i;
    var a := i;
    if a < |s| && s[a] == '.' {
      assert DigitsEnd(s, a + 1) == a + 1;
    }
  }

  /**
   * A token that starts with one of the separators U+001C to U+001F is never
   * a number, although `str.strip()` would remove the separator.
   */
  lemma SeparatorRefused(c: char, rest: string)
    requires '\U{1c}' <= c <= '\U{1f}'
    ensures IsSpace(c)
    ensures ParseFloat([c] + rest) == None
  {
    var t := [c] + rest;
    assert t[0] == c && !IsSpaceIn(c, FloatSpaces);
    assert SkipSpace(t, 0, FloatSpaces) == 0;
    TrimSpaceKeeps(t, 0, |t|, FloatSpaces, 0);
    var s := StripBy(t, FloatSpaces);
    assert s[0] == c && !IsDigit(c) && c != '.';
    assert DigitsEnd(s, 0) == 0;
  }
}
