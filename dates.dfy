/**
 * Calendar dates and the subset of `datetime.strptime` / `strftime` the pipeline uses.
 *
 * `strptime` turns each directive into a regular expression (`%d` is `3[01]|[12]\d|0[1-9]|[1-9]| [1-9]`,
 * `%m` is `1[0-2]|0[1-9]|[1-9]`, `%Y` is four digits, `%b`/`%B` are English month names without case,
 * a space in the format is `\s+`), matches it at the start of the text, fails when text is left over,
 * and then refuses a day the month does not have. Formats whose fields are separated are modelled by
 * splitting on the separator (the field expressions never contain it); `%Y%m%d` keeps the
 * alternative priority, so "202411" reads as 2024-01-01.
 */
module Dates {

  import opened Wrappers
  import opened Text
  import opened Numbers

  datatype Date = Date(year: int, month: int, day: int)

  predicate IsLeap(y: int)
  {
    y % 4 == 0 && (y % 100 != 0 || y % 400 == 0)
  }

  function DaysInMonth(y: int, m: int): (n: int)
    requires 1 <= m <= 12
    ensures 28 <= n <= 31
  {
    if m == 2 then (if IsLeap(y) then 29 else 28)
    else if m == 4 || m == 6 || m == 9 || m == 11 then 30
    else 31
  }

  /** What `datetime(year, month, day)` accepts. */
  predicate ValidDate(d: Date)
  {
    1 <= d.year <= 9999 && 1 <= d.month <= 12 && 1 <= d.day <= DaysInMonth(d.year, d.month)
  }

  function MakeDate(y: int, m: int, d: int): (r: Option<Date>)
    ensures r.Some? <==> ValidDate(Date(y, m, d))
    ensures r.Some? ==> r.value == Date(y, m, d)
  {
    if ValidDate(Date(y, m, d)) then Some(Date(y, m, d)) else None
  }

  predicate NonZeroDigit(c: char)
  {
    '1' <= c <= '9'
  }

  /** A whole field read by `%d`. */
  function DayToken(s: string): (r: Option<int>)
    ensures r.Some? ==> 1 <= r.value <= 31
  {
    if |s| == 2 && s[0] == '3' && (s[1] == '0' || s[1] == '1') then Some(30 + DigitVal(s[1]))
    else if |s| == 2 && (s[0] == '1' || s[0] == '2') && IsDigit(s[1]) then Some(10 * DigitVal(s[0]) + DigitVal(s[1]))
    else if |s| == 2 && s[0] == '0' && NonZeroDigit(s[1]) then Some(DigitVal(s[1]))
    else if |s| == 1 && NonZeroDigit(s[0]) then Some(DigitVal(s[0]))
    else if |s| == 2 && s[0] == ' ' && NonZeroDigit(s[1]) then Some(DigitVal(s[1]))
    else None
  }

  /** A whole field read by `%m`. */
  function MonthToken(s: string): (r: Option<int>)
    ensures r.Some? ==> 1 <= r.value <= 12
  {
    if |s| == 2 && s[0] == '1' && '0' <= s[1] <= '2' then Some(10 + DigitVal(s[1]))
    else if |s| == 2 && s[0] == '0' && NonZeroDigit(s[1]) then Some(DigitVal(s[1]))
    else if |s| == 1 && NonZeroDigit(s[0]) then Some(DigitVal(s[0]))
    else None
  }

  /** A whole field read by `%Y`: exactly four digits. */
  function YearToken(s: string): (r: Option<int>)
    ensures r.Some? ==> 0 <= r.value <= 9999
  {
    if |s| == 4 && AllDigits(s) then Some(DigitsValue(s)) else None
  }

  const MonthAbbreviations: seq<string> :=
    ["jan", "feb", "mar", "apr", "may", "jun", "jul", "aug", "sep", "oct", "nov", "dec"]

  const MonthNames: seq<string> :=
    ["january", "february", "march", "april", "may", "june", "july", "august", "september",
     "october", "november", "december"]

  /** The month whose name in `names` equals `s` without regard to case. */
  function MonthByName(s: string, names: seq<string>, k: nat): (r: Option<int>)
    requires |names| == 12 && k <= 12
    ensures r.Some? ==> k + 1 <= r.value <= 12 && Lower(s) == names[r.value - 1]
    ensures r.None? ==> forall j :: k <= j < 12 ==> Lower(s) != names[j]
    decreases 12 - k
  {
    if k == 12 then None
    else if Lower(s) == names[k] then Some(k + 1)
    else MonthByName(s, names, k + 1)
  }

  /** The first name, from `k` on, that a text matches decides the month. */
  lemma {:induction false} MonthByNameFrom(s: string, names: seq<string>, k: nat, j: nat)
    requires |names| == 12 && k <= j < 12 && Lower(s) == names[j]
    requires forall i :: k <= i < j ==> names[i] != names[j]
    ensures MonthByName(s, names, k) == Some(j + 1)
    decreases j - k
  {
    if k < j {
      MonthByNameFrom(s, names, k + 1, j);
    }
  }

  /** `%d/%m/%Y`. */
  function ParseDaySlashMonthSlashYear(s: string): (r: Option<Date>)
    ensures r.Some? ==> ValidDate(r.value)
  {
    var parts := SplitOn(s, "/");
    if |parts| != 3 then None
    else
      match (DayToken(parts[0]), MonthToken(parts[1]), YearToken(parts[2]))
      case (Some(d), Some(m), Some(y)) => MakeDate(y, m, d)
      case _ => None
  }

  /** `%d<sep>%b<sep>%Y` (or `%B`) once the text is cut into its three fields. */
  function DayMonthNameYear(parts: seq<string>, names: seq<string>): (r: Option<Date>)
    requires |names| == 12
    ensures r.Some? ==> ValidDate(r.value)
  {
    if |parts| != 3 then None
    else
      match (DayToken(parts[0]), MonthByName(parts[1], names, 0), YearToken(parts[2]))
      case (Some(d), Some(m), Some(y)) => MakeDate(y, m, d)
      case _ => None
  }

  /** Three fields that read as the day, the month name and the year of a valid date give that date. */
  lemma DayMonthNameYearOf(parts: seq<string>, names: seq<string>, d: Date)
    requires |names| == 12 && |parts| == 3 && ValidDate(d)
    requires DayToken(parts[0]) == Some(d.day) && MonthByName(parts[1], names, 0) == Some(d.month)
    requires YearToken(parts[2]) == Some(d.year)
    ensures DayMonthNameYear(parts, names) == Some(d)
  {
  }

  /** `%d-%b-%Y`. */
  function ParseDayDashAbbrevDashYear(s: string): (r: Option<Date>)
    ensures r.Some? ==> ValidDate(r.value)
  {
    DayMonthNameYear(SplitOn(s, "-"), MonthAbbreviations)
  }

  /** `%d %b %Y` on a stripped text (each space of the format reads `\s+`). */
  function ParseDaySpaceAbbrevSpaceYear(s: string): (r: Option<Date>)
    ensures r.Some? ==> ValidDate(r.value)
  {
    DayMonthNameYear(SplitWs(s), MonthAbbreviations)
  }

  /** `%d %B %Y` on a stripped text. */
  function ParseDaySpaceMonthSpaceYear(s: string): (r: Option<Date>)
    ensures r.Some? ==> ValidDate(r.value)
  {
    DayMonthNameYear(SplitWs(s), MonthNames)
  }

  /** `%Y-%m-%d`. */
  function ParseYearDashMonthDashDay(s: string): (r: Option<Date>)
    ensures r.Some? ==> ValidDate(r.value)
  {
    var parts := SplitOn(s, "-");
    if |parts| != 3 then None
    else
      match (YearToken(parts[0]), MonthToken(parts[1]), DayToken(parts[2]))
      case (Some(y), Some(m), Some(d)) => MakeDate(y, m, d)
      case _ => None
  }

  /** Alternative `k` of `%m` read at the start of `r`: (value, length). */
  function MonthAlt(r: string, k: nat): (o: Option<(int, nat)>)
    ensures o.Some? ==> 1 <= o.value.1 <= |r|
  {
    if k == 0 && |r| >= 2 && r[0] == '1' && '0' <= r[1] <= '2' then Some((10 + DigitVal(r[1]), 2))
    else if k == 1 && |r| >= 2 && r[0] == '0' && NonZeroDigit(r[1]) then Some((DigitVal(r[1]), 2))
    else if k == 2 && |r| >= 1 && NonZeroDigit(r[0]) then Some((DigitVal(r[0]), 1))
    else None
  }

  /** Alternative `k` of `%d` read at the start of `r`: (value, length). */
  function DayAlt(r: string, k: nat): (o: Option<(int, nat)>)
    ensures o.Some? ==> 1 <= o.value.1 <= |r|
  {
    if k == 0 && |r| >= 2 && r[0] == '3' && (r[1] == '0' || r[1] == '1') then Some((30 + DigitVal(r[1]), 2))
    else if k == 1 && |r| >= 2 && (r[0] == '1' || r[0] == '2') && IsDigit(r[1]) then Some((10 * DigitVal(r[0]) + DigitVal(r[1]), 2))
    else if k == 2 && |r| >= 2 && r[0] == '0' && NonZeroDigit(r[1]) then Some((DigitVal(r[1]), 2))
    else if k == 3 && |r| >= 1 && NonZeroDigit(r[0]) then Some((DigitVal(r[0]), 1))
    else if k == 4 && |r| >= 2 && r[0] == ' ' && NonZeroDigit(r[1]) then Some((DigitVal(r[1]), 2))
    else None
  }

  /** The first alternative of `%d`, from `k` on, that reads a prefix of `r`. */
  function FirstDay(r: string, k: nat): (o: Option<(int, nat)>)
    ensures o.Some? ==> 1 <= o.value.1 <= |r|
    decreases 5 - k
  {
    if k >= 5 then None
    else if DayAlt(r, k).Some? then DayAlt(r, k)
    else FirstDay(r, k + 1)
  }

  /** `%m%d` after the year: the first month alternative after which some day alternative reads. */
  function FirstMonthDay(r: string, k: nat): (o: Option<(int, int, nat)>)
    ensures o.Some? ==> o.value.2 <= |r|
    decreases 3 - k
  {
    if k >= 3 then None
    else
      match MonthAlt(r, k)
      case Some((m, ml)) =>
        (match FirstDay(r[ml..], 0)
         case Some((d, dl)) => Some((m, d, ml + dl))
         case None => FirstMonthDay(r, k + 1))
      case None => FirstMonthDay(r, k + 1)
  }

  /** `%Y%m%d`. */
  function ParseCompactYearMonthDay(s: string): (r: Option<Date>)
    ensures r.Some? ==> ValidDate(r.value)
  {
    if |s| < 4 || !AllDigits(s[..4]) then None
    else
      match FirstMonthDay(s[4..], 0)
      case Some((m, d, n)) => if 4 + n == |s| then MakeDate(DigitsValue(s[..4]), m, d) else None
      case None => None
  }

  /** Two-digit zero-padded rendering used by `%m` and `%d`. */
  function Pad2(n: nat): (s: string)
    requires n < 100
    ensures |s| == 2 && AllDigits(s) && DigitsValue(s) == n
  {
    var s := [DigitChar(n / 10), DigitChar(n % 10)];
    assert s[..1] == [DigitChar(n / 10)];
    s
  }

  /** A zero-padded day reads back with `%d`, a zero-padded month with `%m`. */
  lemma Pad2Tokens(n: int)
    requires 1 <= n <= 31
    ensures DayToken(Pad2(n)) == Some(n)
    ensures n <= 12 ==> MonthToken(Pad2(n)) == Some(n)
  {
    var s := Pad2(n);
    var t := n / 10;
    var u := n % 10;
    assert n == 10 * t + u && 0 <= t <= 3;
    assert s[0] == DigitChar(t) && s[1] == DigitChar(u);
    assert DigitVal(s[0]) == t && DigitVal(s[1]) == u;
  }

  /**
   * `%Y` as the C library prints it: the year in decimal without padding, so years before
   * 1000 come out with fewer than four digits.
   */
  function YearText(y: int): (s: string)
    requires y >= 1
  {
    DigitsOf(y)
  }

  /** `strftime("%Y-%m-%d")`. */
  function FormatIso(d: Date): (s: string)
    requires ValidDate(d)
  {
    YearText(d.year) + "-" + Pad2(d.month) + "-" + Pad2(d.day)
  }

  /** `strftime("%Y%m%d")`. */
  function FormatCompact(d: Date): (s: string)
    requires ValidDate(d)
  {
    YearText(d.year) + Pad2(d.month) + Pad2(d.day)
  }

  /** `date + relativedelta(years=1)`: same month and day a year on, 29 February becoming 28. */
  function AddOneYear(d: Date): (r: Option<Date>)
    requires ValidDate(d)
    ensures r.Some? <==> d.year < 9999
    ensures r.Some? ==> ValidDate(r.value) && r.value.year == d.year + 1 && r.value.month == d.month
    ensures r.Some? ==> r.value.day == (if d.day <= DaysInMonth(d.year + 1, d.month) then d.day else DaysInMonth(d.year + 1, d.month))
  {
    if d.year >= 9999 then None
    else
      var last := DaysInMonth(d.year + 1, d.month);
      Some(Date(d.year + 1, d.month, if d.day <= last then d.day else last))
  }

  /** Only 29 February is moved by adding a year. */
  lemma AddOneYearKeepsDay(d: Date)
    requires ValidDate(d) && d.year < 9999
    ensures AddOneYear(d).value.day != d.day <==> d.month == 2 && d.day == 29
  {
    if d.month == 2 && d.day == 29 {
      assert IsLeap(d.year);
      assert !IsLeap(d.year + 1);
    }
  }

  lemma DigitsOfFour(y: int)
    requires 1000 <= y <= 9999
    ensures |DigitsOf(y)| == 4
  {
    var a := y / 10;
    var b := a / 10;
    var c := b / 10;
    assert 1 <= c < 10 && 10 <= b && 100 <= a;
    assert |DigitsOf(c)| == 1;
    assert |DigitsOf(b)| == 2;
    assert |DigitsOf(a)| == 3;
  }

  /** A rendered ISO date of a four-digit year reads back with `%Y-%m-%d`. */
  lemma ParseFormatIso(d: Date)
    requires ValidDate(d) && d.year >= 1000
    ensures ParseYearDashMonthDashDay(FormatIso(d)) == Some(d)
  {
    var y := YearText(d.year);
    var mm := Pad2(d.month);
    var dd := Pad2(d.day);
    DigitsOfFour(d.year);
    DigitsOfValue(d.year);
    var s := FormatIso(d);
    assert s == y + "-" + mm + "-" + dd;
    SplitAt3(y, mm, dd, '-');
    assert MonthToken(mm) == Some(d.month);
    assert DayToken(dd) == Some(d.day);
  }

  /** Splitting three separator-free fields joined by the separator gives the fields back. */
  lemma SplitAt3(a: string, b: string, c: string, sep: char)
    requires forall i :: 0 <= i < |a| ==> a[i] != sep
    requires forall i :: 0 <= i < |b| ==> b[i] != sep
    requires forall i :: 0 <= i < |c| ==> c[i] != sep
    ensures SplitOn(a + [sep] + b + [sep] + c, [sep]) == [a, b, c]
  {
    var s1 := b + [sep] + c;
    assert a + [sep] + b + [sep] + c == a + [sep] + s1;
    SplitFirst(a, s1, sep);
    SplitFirst(b, c, sep);
    SplitNone(c, sep);
  }

  lemma SplitFirst(a: string, rest: string, sep: char)
    requires forall i :: 0 <= i < |a| ==> a[i] != sep
    ensures SplitOn(a + [sep] + rest, [sep]) == [a] + SplitOn(rest, [sep])
  {
    var s := a + [sep] + rest;
    assert OccursAt(s, [sep], |a|) by {
      assert s[|a|..|a| + 1] == [sep];
    }
    forall j | 0 <= j < |a|
      ensures !OccursAt(s, [sep], j)
    {
      assert s[j..j + 1] == [a[j]];
    }
    assert IndexOf(s, [sep], 0) == Some(|a|);
    assert s[..|a|] == a;
    assert s[|a| + 1..] == rest;
  }

  lemma SplitNone(c: string, sep: char)
    requires forall i :: 0 <= i < |c| ==> c[i] != sep
    ensures SplitOn(c, [sep]) == [c]
  {
    forall j | 0 <= j <= |c| - 1
      ensures !OccursAt(c, [sep], j)
    {
      assert c[j..j + 1] == [c[j]];
    }
    assert IndexOf(c, [sep], 0).None?;
  }

  /** A compact rendering of a four-digit year reads back with `%Y%m%d`. */
  lemma ParseFormatCompact(d: Date)
    requires ValidDate(d) && d.year >= 1000
    ensures ParseCompactYearMonthDay(FormatCompact(d)) == Some(d)
  {
    var y := YearText(d.year);
    var mm := Pad2(d.month);
    var dd := Pad2(d.day);
    DigitsOfFour(d.year);
    DigitsOfValue(d.year);
    var s := FormatCompact(d);
    assert s[..4] == y;
    assert s[4..] == mm + dd;
    MonthDayPadded(d.month, d.day);
  }

  lemma MonthDayPadded(m: int, d: int)
    requires 1 <= m <= 12 && 1 <= d <= 31
    ensures FirstMonthDay(Pad2(m) + Pad2(d), 0) == Some((m, d, 4))
  {
    var r := Pad2(m) + Pad2(d);
    assert r[2..] == Pad2(d);
    var k := if m >= 10 then 0 else 1;
    assert MonthAlt(r, k) == Some((m, 2));
    if k == 1 {
      assert MonthAlt(r, 0).None?;
    }
    var dd := Pad2(d);
    if d >= 30 {
      assert DayAlt(dd, 0) == Some((d, 2));
    } else if d >= 10 {
      assert DayAlt(dd, 0).None?;
      assert DayAlt(dd, 1) == Some((d, 2));
    } else {
      assert DayAlt(dd, 0).None?;
      assert DayAlt(dd, 1).None?;
      assert DayAlt(dd, 2) == Some((d, 2));
    }
  }

  /** Six digits read as year, one-digit month and one-digit day. */
  lemma CompactSixDigits()
    ensures ParseCompactYearMonthDay("202411") == Some(Date(2024, 1, 1))
  {
    var s := "202411";
    assert s[..4] == "2024";
    assert s[4..] == "11";
    assert ("2024")[..3] == "202" && ("202")[..2] == "20" && ("20")[..1] == "2" && ("2")[..0] == "";
    assert DigitsValue("2024") == 2024;
    assert MonthAlt("11", 0) == Some((11, 2));
    assert ("11")[2..] == "";
    assert FirstDay("", 0).None?;
    assert MonthAlt("11", 1).None?;
    assert MonthAlt("11", 2) == Some((1, 1));
    assert ("11")[1..] == "1";
    assert FirstDay("1", 0) == Some((1, 1));
  }
}
