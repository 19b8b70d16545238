/**
 * Field helpers of the share buy-back announcements (sgx_scraper/fetch_sgx_buyback/utils/payload_helper.py
 * and its two older copies under src/fetch_sgx_buyback/utils/): reading a value from an
 * announcement section, preferring one section over another, the first number in a text, the
 * shape of the price fields, and the mandate still unused.
 */
module BuybackHelpers {

  import opened Wrappers
  import opened Text
  import opened Numbers
  import opened ODicts
  import ParserHelper
  import Dates

  /** A value of an announcement section: one text, or the texts of a table row with several values. */
  datatype Cell = Single(s: string) | Several(xs: seq<string>)

  /** An announcement section as a dict from labels to values; None is a section whose reading raised. */
  type Section = Option<ODict<Cell>>

  // ---------------------------------------------------------------- safe_extract_value

  /** `safe_extract_value`: the first item of a non-empty list, a non-empty text itself, otherwise None. */
  function ExtractValue(v: Option<Cell>): (r: Option<string>)
    ensures r.Some? <==> v.Some? && ((v.value.Single? && v.value.s != "") || (v.value.Several? && v.value.xs != []))
    ensures r.Some? && v.value.Single? ==> r.value == v.value.s
    ensures r.Some? && v.value.Several? ==> r.value == v.value.xs[0]
  {
    match v
    case None => None
    case Some(Single(s)) => if s != "" then Some(s) else None
    case Some(Several(xs)) => if xs != [] then Some(xs[0]) else None
  }

  /** The value of `key` in a section; a section that is not a dict raises, and that reads as nothing. */
  function SectionValue(key: string, section: Section): (r: Option<string>)
    ensures section.None? ==> r.None?
  {
    if section.None? then None else ExtractValue(Get(section.value, key))
  }

  // ---------------------------------------------------------------- safe_extract_fallback

  /** `safe_extract_fallback`: section A's value when truthy, else section B's when truthy, else None. */
  function ExtractFallback(key: string, a: Section, b: Section): (r: Option<string>)
    ensures r.Some? ==> r.value != ""
    ensures r.Some? <==> TruthyString(SectionValue(key, a)) || TruthyString(SectionValue(key, b))
    ensures TruthyString(SectionValue(key, a)) ==> r == SectionValue(key, a)
    ensures !TruthyString(SectionValue(key, a)) && TruthyString(SectionValue(key, b)) ==> r == SectionValue(key, b)
  {
    var va := SectionValue(key, a);
    if TruthyString(va) then va
    else
      var vb := SectionValue(key, b);
      if TruthyString(vb) then vb else None
  }

  /** A section that raises does not stop the other one from being read, in either position. */
  lemma FallbackSurvivesBrokenSection(key: string, s: Section)
    ensures ExtractFallback(key, None, s) == ExtractFallback(key, s, None)
    ensures ExtractFallback(key, None, s) == (if TruthyString(SectionValue(key, s)) then SectionValue(key, s) else None)
  {
  }

  // ---------------------------------------------------------------- safe_convert_float

  predicate IsNumberChar(c: char)
  {
    IsDigit(c) || c == ',' || c == '.'
  }

  /** The first position at or after `i` holding a digit, a comma or a dot. */
  function RunStart(s: string, i: nat): (k: nat)
    requires i <= |s|
    ensures i <= k <= |s|
    ensures k < |s| ==> IsNumberChar(s[k])
    ensures forall j :: i <= j < k ==> !IsNumberChar(s[j])
    decreases |s| - i
  {
    if i == |s| || IsNumberChar(s[i]) then i else RunStart(s, i + 1)
  }

  /** The length of the run of digits, commas and dots starting at `i`. */
  function RunLength(s: string, i: nat): (n: nat)
    requires i <= |s|
    ensures i + n <= |s|
    ensures forall j :: i <= j < i + n ==> IsNumberChar(s[j])
    ensures i + n < |s| ==> !IsNumberChar(s[i + n])
    decreases |s| - i
  {
    if i < |s| && IsNumberChar(s[i]) then 1 + RunLength(s, i + 1) else 0
  }

  /** `re.search(r"([\d,.]+)", s).group(1)`, or "" when there is no match. */
  function NumberRun(s: string): (r: string)
    ensures forall j :: 0 <= j < |r| ==> IsNumberChar(r[j])
    ensures r == "" <==> forall j :: 0 <= j < |s| ==> !IsNumberChar(s[j])
  {
    var k := RunStart(s, 0);
    s[k..k + RunLength(s, k)]
  }

  /**
   * `safe_convert_float` of the buy-back helpers: the first run of digits, commas and dots with
   * the commas removed, read by `float`; falsy input, no run, or a run `float` refuses gives None.
   */
  function BuyFloat(v: Option<string>): (r: Option<real>)
    ensures !TruthyString(v) ==> r.None?
  {
    if !TruthyString(v) then None
    else
      var run := NumberRun(v.value);
      if run == "" then None else ParseFloat(RemoveChars(run, {','}))
  }

  /** A text without any digit, comma or dot has no number. */
  lemma BuyFloatWithoutRun(s: string)
    requires forall j :: 0 <= j < |s| ==> !IsNumberChar(s[j])
    ensures BuyFloat(Some(s)).None?
  {
  }

  /** Removing characters a text does not hold changes nothing. */
  lemma {:induction false} RemoveAbsent(s: string, cs: set<char>)
    requires forall j :: 0 <= j < |s| ==> s[j] !in cs
    ensures RemoveChars(s, cs) == s
    decreases |s|
  {
    if s != "" {
      RemoveAbsent(s[1..], cs);
    }
  }

  /** The number after a prefix without digits, commas or dots: "S$ 1500 each" reads 1500. */
  lemma BuyFloatOfDigits(p: string, d: string, q: string)
    requires forall j :: 0 <= j < |p| ==> !IsNumberChar(p[j])
    requires d != "" && AllDigits(d)
    requires q == "" || !IsNumberChar(q[0])
    ensures BuyFloat(Some(p + d + q)) == Some(DigitsValue(d) as real)
  {
    var s := p + d + q;
    assert |s| == |p| + |d| + |q|;
    RunAfterPrefix(p, d, q);
    RemoveAbsent(d, {','});
    ParseDigits(d);
    assert BuyFloat(Some(s)) == ParseFloat(RemoveChars(d, {','}));
  }

  /** The run of `p + d + q` is `d`. */
  lemma RunAfterPrefix(p: string, d: string, q: string)
    requires forall j :: 0 <= j < |p| ==> !IsNumberChar(p[j])
    requires d != "" && AllDigits(d)
    requires q == "" || !IsNumberChar(q[0])
    ensures NumberRun(p + d + q) == d
  {
    var s := p + d + q;
    assert s[|p|] == d[0];
    assert RunStart(s, 0) == |p|;
    assert s[|p|..|p| + |d|] == d;
    if q != "" {
      assert s[|p| + |d|] == q[0];
    }
    RunOfDigits(s, |p|, d);
  }

  /** `float` of a digit string is its value. */
  lemma ParseDigits(d: string)
    requires d != "" && AllDigits(d)
    ensures ParseFloat(d) == Some(DigitsValue(d) as real)
  {
    StripOfDigits(d);
    assert IsDigit(d[0]);
    UnsignedOfDigits(d);
  }

  lemma {:induction false} RunOfDigits(s: string, i: nat, d: string)
    requires i + |d| <= |s| && s[i..i + |d|] == d && AllDigits(d)
    requires i + |d| == |s| || !IsNumberChar(s[i + |d|])
    ensures RunLength(s, i) == |d|
    decreases |d|
  {
    if d != "" {
      assert s[i] == d[0] && IsDigit(d[0]);
      assert s[i + 1..i + 1 + |d[1..]|] == d[1..];
      RunOfDigits(s, i + 1, d[1..]);
    }
  }

  /** The run holds no sign and no space, so what it reads is never negative. */
  lemma BuyFloatNonNegative(v: Option<string>)
    ensures BuyFloat(v).Some? ==> BuyFloat(v).value >= 0.0
  {
    if TruthyString(v) && NumberRun(v.value) != "" {
      var run := NumberRun(v.value);
      var t := RemoveChars(run, {','});
      NoCommaStaysNumeric(run, {','});
      if t != "" {
        assert IsNumberChar(t[0]) && IsNumberChar(t[|t| - 1]);
        StripIdentity(t);
      }
    }
  }

  /** Removing characters keeps only characters of the original. */
  lemma {:induction false} NoCommaStaysNumeric(s: string, cs: set<char>)
    requires forall j :: 0 <= j < |s| ==> IsNumberChar(s[j])
    ensures forall j :: 0 <= j < |RemoveChars(s, cs)| ==> IsNumberChar(RemoveChars(s, cs)[j])
    decreases |s|
  {
    if s != "" {
      NoCommaStaysNumeric(s[1..], cs);
    }
  }

  /** A run with two dots, such as "1.2.3", is a number `float` refuses. */
  lemma TwoDotsRefused(a: string, b: string, c: string)
    requires AllDigits(a) && AllDigits(b) && AllDigits(c)
    ensures BuyFloat(Some(a + "." + b + "." + c)).None?
  {
    var s := a + "." + b + "." + c;
    assert forall j :: 0 <= j < |s| ==> IsNumberChar(s[j]) && s[j] != ',';
    BuyFloatOfRun(s);
    UnsignedTwoDots(a, b, c);
  }

  /** A whole text of digits and dots converts as `float` reads it. */
  lemma BuyFloatOfRun(s: string)
    requires s != "" && forall j :: 0 <= j < |s| ==> IsNumberChar(s[j]) && s[j] != ','
    ensures BuyFloat(Some(s)) == UnsignedFloat(s)
  {
    assert RunStart(s, 0) == 0;
    WholeRun(s, 0);
    assert NumberRun(s) == s;
    RemoveAbsent(s, {','});
    assert RemoveChars(s, {','}) == s;
    StripIdentity(s);
    assert s[0] != '-' && s[0] != '+' by { assert IsNumberChar(s[0]); }
    assert ParseFloat(s) == UnsignedFloat(s);
  }

  lemma UnsignedTwoDots(a: string, b: string, c: string)
    requires AllDigits(a) && AllDigits(b) && AllDigits(c)
    ensures UnsignedFloat(a + "." + b + "." + c).None?
  {
    var s := a + "." + b + "." + c;
    assert AllDigits(s[..|a|]) by { assert s[..|a|] == a; }
    assert AllDigits(s[|a| + 1..|a| + 1 + |b|]) by { assert s[|a| + 1..|a| + 1 + |b|] == b; }
    SecondDotRefused(s, |a|, |a| + 1 + |b|);
  }

  /** Digits, a dot, digits and a second dot: the literal is invalid whatever follows. */
  lemma SecondDotRefused(s: string, i: nat, j: nat)
    requires i < j < |s| && s[i] == '.' && s[j] == '.'
    requires AllDigits(s[..i]) && AllDigits(s[i + 1..j])
    ensures UnsignedFloat(s).None?
  {
    forall k | 0 <= k < i
      ensures IsDigit(s[k])
    {
      assert s[k] == s[..i][k];
    }
    DigitRunStops(s, 0, i);
    assert |LeadingDigits(s)| == i;
    var t := s[i..];
    assert t[1..] == s[i + 1..];
    var u := s[i + 1..];
    forall k | 0 <= k < j - i - 1
      ensures IsDigit(u[k])
    {
      assert u[k] == s[i + 1..j][k];
    }
    DigitRunStops(u, 0, j - i - 1);
    assert FractionPart(t).1 == s[j..];
    StrayRestRefused(s);
  }

  /** Text left after the fraction that is not an exponent makes the literal invalid. */
  lemma StrayRestRefused(s: string)
    requires var r2 := FractionPart(s[|LeadingDigits(s)|..]).1; r2 != "" && r2[0] != 'e' && r2[0] != 'E'
    ensures UnsignedFloat(s).None?
  {
  }

  /** A text made only of digits, commas and dots is one run. */
  lemma {:induction false} WholeRun(s: string, i: nat)
    requires i <= |s| && forall j :: 0 <= j < |s| ==> IsNumberChar(s[j])
    ensures RunLength(s, i) == |s| - i
    decreases |s| - i
  {
    if i < |s| {
      WholeRun(s, i + 1);
    }
  }

  /** The leading digits of digits followed by a dot are those digits. */
  lemma DigitsThenDot(x: string, y: string)
    requires AllDigits(x)
    ensures LeadingDigits(x + "." + y) == x
  {
    DigitRunStops(x + "." + y, 0, |x|);
  }

  lemma {:induction false} DigitRunStops(s: string, i: nat, n: nat)
    requires i + n < |s| && !IsDigit(s[i + n]) && forall j :: i <= j < i + n ==> IsDigit(s[j])
    ensures DigitRun(s, i) == n
    decreases n
  {
    if n > 0 {
      DigitRunStops(s, i + 1, n - 1);
    }
  }

  // ---------------------------------------------------------------- build_price_per_share

  /** The dict `build_price_per_share` returns: the paid price, the highest and lowest prices, or nothing. */
  datatype PriceFields = PaidPrice(paid: Option<real>) | PriceRange(highest: Option<real>, lowest: Option<real>) | NoPrices

  /** The three-way rule, the conversion being the copy's own. */
  function PriceShape(convert: Option<string> -> Option<real>, paid: Option<string>, highest: Option<string>,
                      lowest: Option<string>): (r: PriceFields)
    ensures r.PaidPrice? <==> TruthyString(paid) && !TruthyString(highest) && !TruthyString(lowest)
    ensures r.PriceRange? <==> !TruthyString(paid) && TruthyString(highest) && TruthyString(lowest)
    ensures r.PaidPrice? ==> r.paid == convert(paid)
    ensures r.PriceRange? ==> r.highest == convert(highest) && r.lowest == convert(lowest)
  {
    if TruthyString(paid) && !TruthyString(highest) && !TruthyString(lowest) then PaidPrice(convert(paid))
    else if !TruthyString(paid) && TruthyString(highest) && TruthyString(lowest) then PriceRange(convert(highest), convert(lowest))
    else NoPrices
  }

  /** `build_price_per_share` of the scraper (and of the standardising copy, which has no try/except but nothing that raises). */
  function BuildPricePerShare(paid: Option<string>, highest: Option<string>, lowest: Option<string>): (r: PriceFields)
    ensures r.PaidPrice? ==> r.paid == BuyFloat(paid)
    ensures r.NoPrices? <==> TruthyString(paid) == (TruthyString(highest) || TruthyString(lowest)) ||
                             TruthyString(highest) != TruthyString(lowest)
  {
    PriceShape(BuyFloat, paid, highest, lowest)
  }

  /**
   * `build_price_per_share` of the older helper: it takes the announcement's url first; its
   * `safe_convert_float` comes from a module that does not define one, so the conversion is a
   * parameter.
   */
  function BuildPricePerShareWithUrl(convert: Option<string> -> Option<real>, url: string, paid: Option<string>,
                                     highest: Option<string>, lowest: Option<string>): (r: PriceFields)
  {
    PriceShape(convert, paid, highest, lowest)
  }

  /** The url is never read: any two urls give the same fields, those of the three-way rule. */
  lemma UrlHasNoEffect(convert: Option<string> -> Option<real>, u1: string, u2: string, paid: Option<string>,
                       highest: Option<string>, lowest: Option<string>)
    ensures BuildPricePerShareWithUrl(convert, u1, paid, highest, lowest) == BuildPricePerShareWithUrl(convert, u2, paid, highest, lowest)
    ensures BuildPricePerShareWithUrl(convert, u1, paid, highest, lowest) == PriceShape(convert, paid, highest, lowest)
  {
  }

  // ---------------------------------------------------------------- compute_mandate_remaining

  /** `compute_mandate_remaining`: total − cumulative when both are truthy (0 counts as missing), unclamped. */
  function MandateRemaining(total: Option<real>, cumulative: Option<real>): (r: Option<real>)
    ensures r.Some? <==> TruthyReal(total) && TruthyReal(cumulative)
    ensures r.Some? ==> r.value + cumulative.value == total.value
  {
    if !TruthyReal(total) || !TruthyReal(cumulative) then None else Some(total.value - cumulative.value)
  }

  /** Buying more than the mandate leaves a negative remainder: nothing clamps it. */
  lemma OverboughtMandateNegative(total: real, cumulative: real)
    requires 0.0 < total < cumulative
    ensures MandateRemaining(Some(total), Some(cumulative)).value < 0.0
  {
  }

  // ---------------------------------------------------------------- payload_standardize_helper.safe_convert_datetime

  /** `safe_convert_datetime` of the standardising copy: only day/month/year on the stripped text. */
  function StandardizeDatetime(date: Option<string>): (r: Option<string>)
    ensures !TruthyString(date) ==> r.None?
  {
    ParserHelper.ConvertWith([ParserHelper.DaySlashMonthSlashYear], date)
  }

  /** A non-empty text converts exactly when it reads as day/month/year once stripped, to that date in ISO form. */
  lemma StandardizeDatetimeFacts(s: string)
    requires s != ""
    ensures var d := ParserHelper.ParseWith(ParserHelper.DaySlashMonthSlashYear, Strip(s));
      (StandardizeDatetime(Some(s)).None? <==> d.None?) &&
      (d.Some? ==> StandardizeDatetime(Some(s)) == Some(Dates.FormatIso(d.value)))
  {
    var fs := [ParserHelper.DaySlashMonthSlashYear];
    ParserHelper.ConvertNoneIff(fs, s);
    if ParserHelper.ParseWith(fs[0], Strip(s)).Some? {
      ParserHelper.ConvertAt(fs, s, 0);
    }
  }
}
