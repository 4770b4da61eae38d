/**
 * Python's `float()` on the strings the pipeline hands it, and Python's
 * `round(x, n)`, both over mathematical reals.
 */
module Numeral {
  import opened Wrappers
  import opened Strings

  function DigitValue(c: char): nat
    requires IsDigit(c)
  {
    c as int - '0' as int
  }

  predicate AllDigits(s: string) { forall i :: 0 <= i < |s| ==> IsDigit(s[i]) }

  predicate HasDigit(s: string) { exists i :: 0 <= i < |s| && IsDigit(s[i]) }

  /** The integer written by a digit string, most significant digit first. */
  function DigitsValue(s: string): nat
    requires AllDigits(s)
    decreases |s|
  {
    if |s| == 0 then 0 else DigitsValue(s[..|s| - 1]) * 10 + DigitValue(s[|s| - 1])
  }

  /** Appending a digit multiplies the value by ten and adds the digit. */
  lemma {:induction false} DigitsAppend(s: string, c: char)
    requires AllDigits(s) && IsDigit(c)
    ensures AllDigits(s + [c])
    ensures DigitsValue(s + [c]) == DigitsValue(s) * 10 + DigitValue(c)
  {
    assert (s + [c])[..|s|] == s;
  }

  /** The value of the digits written after a decimal point. */
  function FractionValue(s: string): (r: real)
    requires AllDigits(s)
    ensures 0.0 <= r < 1.0
  {
    if |s| == 0 then 0.0 else (DigitValue(s[0]) as real + FractionValue(s[1..])) / 10.0
  }

  /** Position of the first '.', or |s| when there is none. */
  function DotIndex(s: string): (k: nat)
    ensures k <= |s|
    ensures k < |s| ==> s[k] == '.'
    ensures forall i :: 0 <= i < k ==> s[i] != '.'
  {
    if |s| == 0 || s[0] == '.' then 0 else 1 + DotIndex(s[1..])
  }

  /** `DotIndex` is the first '.' (or the length when there is none). */
  lemma {:induction false} DotIndexFirst(s: string, k: nat)
    requires k <= |s| && (k < |s| ==> s[k] == '.')
    requires forall i :: 0 <= i < k ==> s[i] != '.'
    ensures DotIndex(s) == k
  {
    if k > 0 {
      DotIndexFirst(s[1..], k - 1);
    }
  }

  /**
   * `float()` of an unsigned numeral: digits with at most one '.', and at
   * least one digit on either side of it (so "5", "5.", ".5" and "5.25").
   */
  function ParseUnsigned(s: string): (r: Option<real>)
    ensures r.Some? ==> HasDigit(s) && 0.0 <= r.value
    ensures r.Some? ==> forall i :: 0 <= i < |s| ==> IsDigit(s[i]) || s[i] == '.'
  {
    var k := DotIndex(s);
    var whole := s[..k];
    var frac := if k < |s| then s[k + 1..] else "";
    if AllDigits(whole) && AllDigits(frac) && |whole| + |frac| > 0 then
      assert |whole| > 0 ==> IsDigit(s[0]);
      assert |whole| == 0 ==> IsDigit(s[k + 1]);
      Some(DigitsValue(whole) as real + FractionValue(frac))
    else
      None
  }

  /**
   * Python's `float(s)` for strings without whitespace, exponent, underscore
   * or letters: an optional sign followed by an unsigned numeral. `None`
   * stands for the `ValueError` that `float()` raises.
   */
  function ParseDecimal(s: string): (r: Option<real>)
    ensures r.Some? ==> HasDigit(s)
    ensures r.Some? ==> forall i :: 0 <= i < |s| ==> IsDigit(s[i]) || s[i] == '.' || (i == 0 && s[i] in {'-', '+'})
  {
    if |s| > 0 && (s[0] == '-' || s[0] == '+') then
      match ParseUnsigned(s[1..])
      case Some(v) =>
        assert forall i :: 1 <= i < |s| ==> s[i] == s[1..][i - 1];
        Some(if s[0] == '-' then -v else v)
      case None => None
    else
      ParseUnsigned(s)
  }

  /** A leading '-' negates an unsigned numeral. */
  lemma {:induction false} ParseNegated(u: string)
    requires ParseUnsigned(u).Some?
    ensures ParseDecimal("-" + u) == Some(-ParseUnsigned(u).value)
  {
    assert ("-" + u)[1..] == u;
  }

  /** An unsigned numeral parses as itself. */
  lemma {:induction false} ParseUnsignedDirect(u: string)
    requires ParseUnsigned(u).Some?
    ensures ParseDecimal(u) == ParseUnsigned(u)
  {
  }

  function Pow10(n: nat): (p: nat)
    ensures p >= 1
  {
    if n == 0 then 1 else 10 * Pow10(n - 1)
  }

  /** The integer nearest to `y`, a tie going to the even one. */
  function RoundHalfEven(y: real): (k: int)
    ensures -0.5 <= k as real - y <= 0.5
    ensures y.Floor as real == y ==> k == y.Floor
  {
    var f := y.Floor;
    var rest := y - f as real;
    if rest < 0.5 then f else if rest > 0.5 then f + 1 else if f % 2 == 0 then f else f + 1
  }

  lemma {:induction false} ScaledBound(e: real, p: real)
    requires 1.0 <= p && -0.5 <= e <= 0.5
    ensures -0.5 / p <= e / p <= 0.5 / p
  {
    assert 0.5 / p - e / p == (0.5 - e) / p;
    assert e / p + 0.5 / p == (e + 0.5) / p;
  }

  /**
   * Python's `round(x, n)` on the exact value `x`: the nearest multiple of
   * 10^-n, a tie going to the even multiple. It moves `x` by at most half a
   * unit of the last place, and leaves a value already on the grid alone.
   */
  function RoundTo(x: real, n: nat): (r: real)
    ensures -0.5 / Pow10(n) as real <= r - x <= 0.5 / Pow10(n) as real
    ensures (x * Pow10(n) as real).Floor as real == x * Pow10(n) as real ==> r == x
  {
    var k := RoundHalfEven(x * Pow10(n) as real);
    RoundingScaled(x, Pow10(n) as real, k);
    k as real / Pow10(n) as real
  }

  /** An integer within half a unit of `x * p`, scaled back by `p`, is within `0.5 / p` of `x`. */
  lemma {:induction false} RoundingScaled(x: real, p: real, k: int)
    requires 1.0 <= p && -0.5 <= k as real - x * p <= 0.5
    requires (x * p).Floor as real == x * p ==> k == (x * p).Floor
    ensures -0.5 / p <= k as real / p - x <= 0.5 / p
    ensures (x * p).Floor as real == x * p ==> k as real / p == x
  {
    ScaledBound(k as real - x * p, p);
    assert k as real / p - x == (k as real - x * p) / p;
    assert (x * p) / p == x;
  }

  /** Rounding never turns a non-negative value negative. */
  lemma {:induction false} RoundNonNegative(x: real, n: nat)
    requires 0.0 <= x
    ensures 0.0 <= RoundTo(x, n)
  {
    var p := Pow10(n) as real;
    assert 0.0 <= x * p;
  }

  /** Dividing by a positive number keeps the order. */
  lemma {:induction false} DivMonotone(a: real, b: real, c: real)
    requires 0.0 < c && a <= b
    ensures a / c <= b / c
  {
    assert b / c - a / c == (b - a) / c;
  }

  /** One more unit over a positive denominator is a strictly larger ratio. */
  lemma {:induction false} DivStep(a: real, c: real)
    requires 0.0 < c
    ensures a / c < (a + 1.0) / c
  {
    assert (a + 1.0) / c - a / c == 1.0 / c;
  }

  /** A part over a positive whole lies in [0, 1]. */
  lemma {:induction false} RatioIsFraction(a: real, c: real)
    requires 0.0 < c && 0.0 <= a <= c
    ensures 0.0 <= a / c <= 1.0
  {
    DivMonotone(a, c, c);
    DivMonotone(0.0, a, c);
  }

  /** `500` parses to 500. */
  lemma {:induction false} ExampleWhole(w: string)
    requires w == "500"
    ensures ParseUnsigned(w) == Some(500.0)
  {
    DigitsAppend("5", '0');
    DigitsAppend("50", '0');
    assert "5" + ['0'] == "50" && "50" + ['0'] == w;
    DotIndexFirst(w, 3);
    assert w[..3] == w;
  }

  /** `float("0.0")` is zero. */
  lemma {:induction false} ZeroText()
    ensures ParseDecimal("0.0") == Some(0.0)
  {
    assert DotIndex("0.0") == 1;
    assert "0.0"[..1] == "0" && "0.0"[2..] == "0";
    assert DigitsValue("0") == 0;
    assert FractionValue("0") == 0.0;
  }

  /** `str(n)` reads back as `n`: the digits `NatToString` writes denote the number. */
  lemma {:induction false} NatToStringValue(n: nat)
    ensures AllDigits(NatToString(n)) && DigitsValue(NatToString(n)) == n
    decreases n
  {
    var d := [(48 + n % 10) as char];
    if n < 10 {
      assert DigitsValue(d) == DigitsValue(d[..0]) * 10 + DigitValue(d[0]);
    } else {
      var r := NatToString(n / 10);
      NatToStringValue(n / 10);
      assert NatToString(n) == r + d;
      assert (r + d)[..|r + d| - 1] == r;
    }
  }
}
