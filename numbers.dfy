/**
 * Numbers as Python sees them, on exact reals: decimal digit strings, `float(str)`,
 * `round(x, n)` (half to even), `int(x)` (towards zero) and `math.isclose`.
 */
module Numbers {

  import opened Wrappers
  import opened Text

  function Pow10(n: nat): (r: nat)
    ensures r >= 1
  {
    if n == 0 then 1 else 10 * Pow10(n - 1)
  }

  function DigitVal(c: char): (r: nat)
    requires IsDigit(c)
    ensures r < 10
  {
    c as int - '0' as int
  }

  predicate AllDigits(s: string)
  {
    forall i | 0 <= i < |s| :: IsDigit(s[i])
  }

  /** The value of a string of decimal digits (the empty string is 0). */
  function DigitsValue(s: string): (r: nat)
    requires AllDigits(s)
    ensures r < Pow10(|s|)
    decreases |s|
  {
    if s == "" then 0 else 10 * DigitsValue(s[..|s| - 1]) + DigitVal(s[|s| - 1])
  }

  function DigitChar(d: nat): (c: char)
    requires d < 10
    ensures IsDigit(c) && DigitVal(c) == d
  {
    ('0' as int + d) as char
  }

  /** The decimal representation of a natural number, without leading zeros. */
  function DigitsOf(n: nat): (s: string)
    ensures s != "" && AllDigits(s)
    decreases n
  {
    if n < 10 then [DigitChar(n)] else DigitsOf(n / 10) + [DigitChar(n % 10)]
  }

  lemma {:induction false} DigitsOfValue(n: nat)
    ensures DigitsValue(DigitsOf(n)) == n
    decreases n
  {
    if n >= 10 {
      DigitsOfValue(n / 10);
      var s := DigitsOf(n);
      assert s[..|s| - 1] == DigitsOf(n / 10);
    }
  }

  /** Length of the run of digits starting at `i`. */
  function DigitRun(s: string, i: nat): (n: nat)
    requires i <= |s|
    ensures i + n <= |s|
    ensures forall j | i <= j < i + n :: IsDigit(s[j])
    ensures i + n < |s| ==> !IsDigit(s[i + n])
    decreases |s| - i
  {
    if i < |s| && IsDigit(s[i]) then 1 + DigitRun(s, i + 1) else 0
  }

  /** Digits `ip` then `.` then digits `fp`, as an exact real. */
  function DecimalValue(ip: string, fp: string): (r: real)
    requires AllDigits(ip) && AllDigits(fp)
    ensures r >= 0.0
  {
    DigitsValue(ip) as real + DigitsValue(fp) as real / Pow10(|fp|) as real
  }

  /** The leading run of digits of `s`. */
  function LeadingDigits(s: string): (d: string)
    ensures |d| <= |s| && AllDigits(d) && d == s[..|d|]
    ensures |d| < |s| ==> !IsDigit(s[|d|])
  {
    s[..DigitRun(s, 0)]
  }

  /** The exponent part after `e`/`E`: an optional sign and at least one digit, nothing else. */
  function ExponentScale(e: string): (r: Option<real>)
    ensures r.Some? ==> r.value > 0.0
  {
    var neg := e != "" && e[0] == '-';
    var d := if e != "" && (e[0] == '-' || e[0] == '+') then e[1..] else e;
    if d == "" || !AllDigits(d) then None
    else
      var p := Pow10(DigitsValue(d)) as real;
      Some(if neg then 1.0 / p else p)
  }

  /** The fraction digits after a leading `.`, and what follows them. */
  function FractionPart(r1: string): (p: (string, string))
    ensures AllDigits(p.0)
  {
    if r1 != "" && r1[0] == '.' then
      var fp := LeadingDigits(r1[1..]);
      (fp, r1[1 + |fp|..])
    else ("", r1)
  }

  /** A value scaled by a positive power of ten stays non-negative. */
  function ScaledBy(x: real, scale: real): (r: real)
    requires x >= 0.0 && scale > 0.0
    ensures r >= 0.0
  {
    x * scale
  }

  /** An unsigned literal: digits, an optional fraction, an optional exponent. */
  function UnsignedFloat(b: string): (r: Option<real>)
    ensures r.Some? ==> r.value >= 0.0
  {
    var ip := LeadingDigits(b);
    var (fp, r2) := FractionPart(b[|ip|..]);
    if |ip| + |fp| == 0 then None
    else if r2 == "" then Some(DecimalValue(ip, fp))
    else if r2[0] == 'e' || r2[0] == 'E' then
      match ExponentScale(r2[1..])
      case None => None
      case Some(scale) => Some(ScaledBy(DecimalValue(ip, fp), scale))
    else None
  }

  /**
   * `float(s)` for decimal literals: surrounding whitespace, an optional sign, digits with an
   * optional fraction (at least one digit in all) and an optional exponent; anything else is
   * a ValueError, here None.
   */
  function ParseFloat(s: string): (r: Option<real>)
  {
    var t := Strip(s);
    if t != "" && (t[0] == '-' || t[0] == '+') then
      match UnsignedFloat(t[1..])
      case None => None
      case Some(v) => Some(if t[0] == '-' then -v else v)
    else UnsignedFloat(t)
  }

  /** A natural number written in decimal parses back to itself. */
  lemma ParseFloatOfDigits(n: nat)
    ensures ParseFloat(DigitsOf(n)) == Some(n as real)
  {
    var s := DigitsOf(n);
    StripOfDigits(s);
    UnsignedOfDigits(s);
    DigitsOfValue(n);
  }

  lemma UnsignedOfDigits(s: string)
    requires s != "" && AllDigits(s)
    ensures UnsignedFloat(s) == Some(DigitsValue(s) as real)
  {
    DigitRunAll(s, 0);
    assert LeadingDigits(s) == s;
    assert s[|s|..] == "";
    assert FractionPart("") == ("", "");
    DecimalWithoutFraction(s);
  }

  lemma DecimalWithoutFraction(ip: string)
    requires AllDigits(ip)
    ensures DecimalValue(ip, "") == DigitsValue(ip) as real
  {
    assert DigitsValue("") == 0;
    assert Pow10(0) == 1;
  }

  lemma {:induction false} DigitRunAll(s: string, i: nat)
    requires i <= |s| && AllDigits(s)
    ensures DigitRun(s, i) == |s| - i
    decreases |s| - i
  {
    if i < |s| {
      DigitRunAll(s, i + 1);
    }
  }

  lemma StripOfDigits(s: string)
    requires AllDigits(s)
    ensures Strip(s) == s
  {
    assert TrimLeft(s) == s by {
      if s != "" {
        assert !IsSpace(s[0]);
      }
    }
    if s != "" {
      assert !IsSpace(s[|s| - 1]);
    }
  }

  /** Python `round(y)` to an integer: nearest, ties to the even neighbour. */
  function RoundInt(y: real): (r: int)
    ensures -0.5 <= r as real - y <= 0.5
    ensures (r as real - y == 0.5 || y - r as real == 0.5) ==> r % 2 == 0
  {
    var f := y.Floor;
    var d := y - f as real;
    if d < 0.5 then f
    else if d > 0.5 then f + 1
    else if f % 2 == 0 then f
    else f + 1
  }

  /** Python `round(x, n)` on an exact value: half to even at the n-th decimal. */
  function Round(x: real, n: nat): (r: real)
    ensures -0.5 <= (r - x) * Pow10(n) as real <= 0.5
  {
    var p := Pow10(n) as real;
    var k := RoundInt(x * p);
    assert (k as real / p - x) * p == k as real - x * p;
    k as real / p
  }

  /** Python `int(x)` on a float: truncation towards zero. */
  function Trunc(x: real): (r: int)
    ensures x >= 0.0 ==> 0 <= r && r as real <= x < r as real + 1.0
    ensures x < 0.0 ==> r <= 0 && r as real - 1.0 < x <= r as real
  {
    if x >= 0.0 then x.Floor else -((-x).Floor)
  }

  function Abs(x: real): (r: real)
    ensures r >= 0.0 && (r == x || r == -x)
  {
    if x < 0.0 then -x else x
  }

  function Max(a: real, b: real): (r: real)
    ensures r >= a && r >= b && (r == a || r == b)
  {
    if a >= b then a else b
  }

  /** `math.isclose(a, b, rel_tol=1e-09)` with the default absolute tolerance 0. */
  predicate IsClose(a: real, b: real)
  {
    Abs(a - b) <= 0.000000001 * Max(Abs(a), Abs(b))
  }

  /** Closeness is symmetric and reflexive; zero is close only to zero. */
  lemma IsCloseFacts(a: real, b: real)
    ensures IsClose(a, b) == IsClose(b, a)
    ensures IsClose(a, a)
    ensures IsClose(a, 0.0) <==> a == 0.0
  {
    assert Abs(a - b) == Abs(b - a);
    if IsClose(a, 0.0) {
      assert Abs(a) <= 0.000000001 * Abs(a);
    }
  }
}
