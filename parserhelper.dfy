/**
 * The parser helpers shared by the scrapers: the stock symbol at the end of an
 * "issuer - security - symbol" line, and the conversion of a filing's date to YYYY-MM-DD by
 * trying a fixed list of `strptime` formats in order. The scraper's copy tries four formats,
 * the older copy two.
 */
module ParserHelper {

  import opened Wrappers
  import opened Text
  import opened Numbers
  import opened Dates

  const SymbolSeparator: string := " - "

  /** `extract_symbol`: the stripped last part of a split on " - " into two or three parts. */
  function ExtractSymbol(issuer: Option<string>): (r: Option<string>)
    ensures issuer.None? ==> r.None?
    ensures r.Some? ==> r.value != "" && !IsSpace(r.value[0]) && !IsSpace(r.value[|r.value| - 1])
    ensures r.Some? ==> var parts := SplitOn(issuer.value, SymbolSeparator);
      2 <= |parts| <= 3 && r.value == Strip(parts[|parts| - 1])
  {
    if issuer.None? then None
    else
      var parts := SplitOn(issuer.value, SymbolSeparator);
      if 1 < |parts| <= 3 && Strip(parts[|parts| - 1]) != "" then Some(Strip(parts[|parts| - 1])) else None
  }

  predicate DashFree(s: string)
  {
    forall i :: 0 <= i < |s| ==> s[i] != '-'
  }

  /** Parts without a '-' joined by " - " split back into the same parts. */
  lemma {:induction false} SplitDashFree(parts: seq<string>)
    requires |parts| >= 1
    requires forall k :: 0 <= k < |parts| ==> DashFree(parts[k])
    ensures SplitOn(JoinWith(SymbolSeparator, parts), SymbolSeparator) == parts
    decreases |parts|
  {
    var sep := SymbolSeparator;
    if |parts| == 1 {
      var s := parts[0];
      assert JoinWith(sep, parts) == s;
      forall j | 0 <= j <= |s| - 3
        ensures !OccursAt(s, sep, j)
      {
        assert s[j + 1] != '-';
      }
      assert IndexOf(s, sep, 0).None?;
    } else {
      var a := parts[0];
      var rest := JoinWith(sep, parts[1..]);
      var s := JoinWith(sep, parts);
      assert s == a + sep + rest;
      forall j | 0 <= j < |a|
        ensures !OccursAt(s, sep, j)
      {
        if j + 1 < |a| {
          assert s[j + 1] == a[j + 1];
        } else {
          assert s[j + 1] == ' ';
        }
      }
      assert OccursAt(s, sep, |a|) by {
        assert s[|a|..|a| + 3] == sep;
      }
      assert IndexOf(s, sep, 0) == Some(|a|);
      assert s[..|a|] == a;
      assert s[|a| + 3..] == rest;
      SplitDashFree(parts[1..]);
      assert parts == [a] + parts[1..];
    }
  }

  /** "name - symbol" and "name - security - symbol" give the symbol; a fourth part gives nothing. */
  lemma SymbolIsLastPart(parts: seq<string>)
    requires |parts| >= 1
    requires forall k :: 0 <= k < |parts| ==> DashFree(parts[k])
    ensures ExtractSymbol(Some(JoinWith(SymbolSeparator, parts))) ==
      if 2 <= |parts| <= 3 && Strip(parts[|parts| - 1]) != "" then Some(Strip(parts[|parts| - 1])) else None
  {
    var s := JoinWith(SymbolSeparator, parts);
    SplitDashFree(parts);
    SymbolOfParts(s, parts);
  }

  lemma SymbolOfParts(s: string, parts: seq<string>)
    requires SplitOn(s, SymbolSeparator) == parts
    ensures ExtractSymbol(Some(s)) ==
      if 2 <= |parts| <= 3 && Strip(parts[|parts| - 1]) != "" then Some(Strip(parts[|parts| - 1])) else None
  {
  }

  // ---------------------------------------------------------------- dates

  datatype DateFormat =
    | DaySlashMonthSlashYear     // %d/%m/%Y
    | DayDashAbbrevDashYear      // %d-%b-%Y
    | DaySpaceAbbrevSpaceYear    // %d %b %Y
    | DaySpaceMonthSpaceYear     // %d %B %Y

  function ParseWith(f: DateFormat, s: string): (r: Option<Date>)
    ensures r.Some? ==> ValidDate(r.value)
  {
    match f
    case DaySlashMonthSlashYear => ParseDaySlashMonthSlashYear(s)
    case DayDashAbbrevDashYear => ParseDayDashAbbrevDashYear(s)
    case DaySpaceAbbrevSpaceYear => ParseDaySpaceAbbrevSpaceYear(s)
    case DaySpaceMonthSpaceYear => ParseDaySpaceMonthSpaceYear(s)
  }

  /** The formats of sgx_scraper/utils/sgx_parser_helper.py, in the order tried. */
  const ScraperFormats: seq<DateFormat> :=
    [DaySlashMonthSlashYear, DayDashAbbrevDashYear, DaySpaceAbbrevSpaceYear, DaySpaceMonthSpaceYear]

  /** The formats of src/utils/sgx_parser_helper.py. */
  const SourceFormats: seq<DateFormat> := [DaySlashMonthSlashYear, DayDashAbbrevDashYear]

  /** The outcome of each format on `s`, in order. */
  function Attempts(fs: seq<DateFormat>, s: string): (r: seq<Option<Date>>)
    ensures |r| == |fs| && forall i :: 0 <= i < |fs| ==> r[i] == ParseWith(fs[i], s)
  {
    seq(|fs|, i requires 0 <= i < |fs| => ParseWith(fs[i], s))
  }

  /** The first attempt, from `k` on, that succeeded. */
  function FirstSuccess(rs: seq<Option<Date>>, k: nat): (r: Option<nat>)
    ensures r.Some? ==> k <= r.value < |rs| && rs[r.value].Some?
    decreases |rs| - k
  {
    if k >= |rs| then None
    else if rs[k].Some? then Some(k)
    else FirstSuccess(rs, k + 1)
  }

  /** Every attempt before the first success failed; there is none only when all failed. */
  lemma {:induction false} FirstSuccessIsFirst(rs: seq<Option<Date>>, k: nat)
    ensures FirstSuccess(rs, k).Some? ==> forall i :: k <= i < FirstSuccess(rs, k).value ==> rs[i].None?
    ensures FirstSuccess(rs, k).None? <==> forall j :: k <= j < |rs| ==> rs[j].None?
    decreases |rs| - k
  {
    if k < |rs| {
      FirstSuccessIsFirst(rs, k + 1);
    }
  }

  /** The first success is at `j` when attempt `j` succeeds and every earlier one fails. */
  lemma FirstSuccessAt(rs: seq<Option<Date>>, j: nat)
    requires j < |rs| && rs[j].Some? && forall i :: 0 <= i < j ==> rs[i].None?
    ensures FirstSuccess(rs, 0) == Some(j)
  {
    FirstSuccessIsFirst(rs, 0);
  }

  /** The loop over formats: falsy input gives None, else the first success rendered as YYYY-MM-DD. */
  function ConvertWith(fs: seq<DateFormat>, date: Option<string>): (r: Option<string>)
    ensures !TruthyString(date) ==> r.None?
  {
    if !TruthyString(date) then None
    else
      var rs := Attempts(fs, Strip(date.value));
      match FirstSuccess(rs, 0)
      case Some(j) => Some(FormatIso(rs[j].value))
      case None => None
  }

  /** A text gives None exactly when every format fails on it once stripped. */
  lemma ConvertNoneIff(fs: seq<DateFormat>, s: string)
    requires s != ""
    ensures ConvertWith(fs, Some(s)).None? <==> forall j :: 0 <= j < |fs| ==> ParseWith(fs[j], Strip(s)).None?
  {
    var rs := Attempts(fs, Strip(s));
    FirstSuccessIsFirst(rs, 0);
    assert forall j :: 0 <= j < |fs| ==> rs[j] == ParseWith(fs[j], Strip(s));
  }

  /** `safe_convert_datetime` of the scraper: four formats. */
  function SafeConvertDatetime(date: Option<string>): (r: Option<string>)
    ensures !TruthyString(date) ==> r.None?
  {
    ConvertWith(ScraperFormats, date)
  }

  /** `safe_convert_datetime` of the older copy: day/month/year and day-abbreviation-year only. */
  function SafeConvertDatetimeTwoFormats(date: Option<string>): (r: Option<string>)
    ensures !TruthyString(date) ==> r.None?
  {
    ConvertWith(SourceFormats, date)
  }

  /** "DD/MM/YYYY" from its three fields, the day and month zero-padded. */
  function SlashFields(day: int, month: int, year: int): string
    requires 1 <= day <= 31 && 1 <= month <= 12 && year >= 1
  {
    Pad2(day) + "/" + Pad2(month) + "/" + YearText(year)
  }

  /** "DD/MM/YYYY" of a date. */
  function SlashText(d: Date): string
    requires ValidDate(d)
  {
    SlashFields(d.day, d.month, d.year)
  }

  /** When format `j` is the first to read the stripped text, its date is the result. */
  lemma ConvertAt(fs: seq<DateFormat>, s: string, j: nat)
    requires s != "" && j < |fs|
    requires forall i :: 0 <= i < j ==> ParseWith(fs[i], Strip(s)).None?
    requires ParseWith(fs[j], Strip(s)).Some?
    ensures ConvertWith(fs, Some(s)) == Some(FormatIso(ParseWith(fs[j], Strip(s)).value))
  {
    var rs := Attempts(fs, Strip(s));
    assert forall i :: 0 <= i < j ==> rs[i].None?;
    FirstSuccessAt(rs, j);
  }

  /** Two failed attempts have no first success. */
  lemma TwoFailed(rs: seq<Option<Date>>)
    requires |rs| == 2 && rs[0].None? && rs[1].None?
    ensures FirstSuccess(rs, 0).None?
  {
    assert FirstSuccess(rs, 1).None?;
  }

  /** Four failed attempts have no first success. */
  lemma FourFailed(rs: seq<Option<Date>>)
    requires |rs| == 4 && rs[0].None? && rs[1].None? && rs[2].None? && rs[3].None?
    ensures FirstSuccess(rs, 0).None?
  {
    assert FirstSuccess(rs, 3).None?;
    assert FirstSuccess(rs, 1).None?;
  }

  /** The scraper's attempts on a text that none of its formats reads. */
  lemma ScraperAttemptsFail(t: string)
    requires ParseWith(DaySlashMonthSlashYear, t).None? && ParseWith(DayDashAbbrevDashYear, t).None?
    requires ParseWith(DaySpaceAbbrevSpaceYear, t).None? && ParseWith(DaySpaceMonthSpaceYear, t).None?
    ensures var rs := Attempts(ScraperFormats, t); |rs| == 4 && rs[0].None? && rs[1].None? && rs[2].None? && rs[3].None?
  {
  }

  /** A text that none of the four formats reads once stripped is refused by the scraper's copy. */
  lemma ScraperRejects(s: string)
    requires s != ""
    requires ParseWith(DaySlashMonthSlashYear, Strip(s)).None? && ParseWith(DayDashAbbrevDashYear, Strip(s)).None?
    requires ParseWith(DaySpaceAbbrevSpaceYear, Strip(s)).None? && ParseWith(DaySpaceMonthSpaceYear, Strip(s)).None?
    ensures SafeConvertDatetime(Some(s)).None?
  {
    ScraperAttemptsFail(Strip(s));
    FourFailed(Attempts(ScraperFormats, Strip(s)));
  }

  /** The older copy's attempts on a text that neither of its formats reads. */
  lemma SourceAttemptsFail(t: string)
    requires ParseWith(DaySlashMonthSlashYear, t).None? && ParseWith(DayDashAbbrevDashYear, t).None?
    ensures var rs := Attempts(SourceFormats, t); |rs| == 2 && rs[0].None? && rs[1].None?
  {
  }

  /** A text that neither of the two formats reads once stripped is refused by the older copy. */
  lemma SourceRejects(s: string)
    requires s != ""
    requires ParseWith(DaySlashMonthSlashYear, Strip(s)).None? && ParseWith(DayDashAbbrevDashYear, Strip(s)).None?
    ensures SafeConvertDatetimeTwoFormats(Some(s)).None?
  {
    SourceAttemptsFail(Strip(s));
    TwoFailed(Attempts(SourceFormats, Strip(s)));
  }

  /** A text the first format reads: both copies take that date. */
  lemma FirstFormatReads(s: string, d: Date)
    requires s != "" && ParseWith(DaySlashMonthSlashYear, Strip(s)) == Some(d)
    ensures SafeConvertDatetime(Some(s)) == Some(FormatIso(d))
    ensures SafeConvertDatetimeTwoFormats(Some(s)) == Some(FormatIso(d))
  {
    FirstAttempts(Strip(s), d);
    FirstSuccessAt(Attempts(ScraperFormats, Strip(s)), 0);
    FirstSuccessAt(Attempts(SourceFormats, Strip(s)), 0);
  }

  /** Both copies' attempts on a text the first format reads. */
  lemma FirstAttempts(t: string, d: Date)
    requires ParseWith(DaySlashMonthSlashYear, t) == Some(d)
    ensures var rs := Attempts(ScraperFormats, t); |rs| == 4 && rs[0] == Some(d)
    ensures var rs := Attempts(SourceFormats, t); |rs| == 2 && rs[0] == Some(d)
  {
  }

  /** Without a '/', the day/month/year format finds one field, not three. */
  lemma NoSlashRejected(t: string)
    requires forall i :: 0 <= i < |t| ==> t[i] != '/'
    ensures ParseWith(DaySlashMonthSlashYear, t).None?
  {
    SplitNone(t, '/');
  }

  /** Without a '-', the day-abbreviation-year format finds one field, not three. */
  lemma NoDashRejected(t: string)
    requires forall i :: 0 <= i < |t| ==> t[i] != '-'
    ensures ParseWith(DayDashAbbrevDashYear, t).None?
  {
    SplitNone(t, '-');
  }

  /** A one-word text without '-' is refused by the three formats that need a separator other than '/'. */
  lemma SingleFieldRejected(s: string)
    requires s != "" && DashFree(s) && forall i :: 0 <= i < |s| ==> !IsSpace(s[i])
    ensures ParseWith(DayDashAbbrevDashYear, s).None?
    ensures ParseWith(DaySpaceAbbrevSpaceYear, s).None?
    ensures ParseWith(DaySpaceMonthSpaceYear, s).None?
  {
    SplitNone(s, '-');
    OneWord(s);
  }

  /** The characters of "DD/MM/YYYY": digits and slashes. */
  lemma SlashShape(dd: string, mm: string, yy: string)
    requires |dd| == 2 && |mm| == 2 && |yy| == 4 && AllDigits(dd) && AllDigits(mm) && AllDigits(yy)
    ensures var s := dd + "/" + mm + "/" + yy;
      s != "" && Strip(s) == s && DashFree(s) && (forall i :: 0 <= i < |s| ==> !IsSpace(s[i])) &&
      SplitOn(s, "/") == [dd, mm, yy]
  {
    var s := dd + "/" + mm + "/" + yy;
    forall i | 0 <= i < |s|
      ensures IsDigit(s[i]) || s[i] == '/'
    {
      if i < 2 { assert s[i] == dd[i]; }
      else if i == 2 { }
      else if i < 5 { assert s[i] == mm[i - 3]; }
      else if i == 5 { }
      else { assert s[i] == yy[i - 6]; }
    }
    StripIdentity(s);
    SplitAt3(dd, mm, yy, '/');
  }

  /** A valid day/month/year text reads back as its date in both copies. */
  lemma SlashDateConverts(d: Date)
    requires ValidDate(d) && d.year >= 1000
    ensures SafeConvertDatetime(Some(SlashText(d))) == Some(FormatIso(d))
    ensures SafeConvertDatetimeTwoFormats(Some(SlashText(d))) == Some(FormatIso(d))
  {
    var s := SlashText(d);
    DigitsOfFour(d.year);
    DigitsOfValue(d.year);
    SlashShape(Pad2(d.day), Pad2(d.month), YearText(d.year));
    Pad2Tokens(d.day);
    Pad2Tokens(d.month);
    assert ParseWith(DaySlashMonthSlashYear, s) == Some(d);
    FirstFormatReads(s, d);
  }

  /** A day the month does not have, such as 31/02/2024, is refused by every format. */
  lemma ImpossibleDayRejected(y: int, m: int, day: int)
    requires 1000 <= y <= 9999 && 1 <= m <= 12 && DaysInMonth(y, m) < day <= 31
    ensures SafeConvertDatetime(Some(SlashFields(day, m, y))).None?
    ensures SafeConvertDatetimeTwoFormats(Some(SlashFields(day, m, y))).None?
  {
    var s := SlashFields(day, m, y);
    DigitsOfFour(y);
    DigitsOfValue(y);
    SlashShape(Pad2(day), Pad2(m), YearText(y));
    SingleFieldRejected(s);
    Pad2Tokens(day);
    Pad2Tokens(m);
    assert ParseWith(DaySlashMonthSlashYear, s).None?;
    ScraperRejects(s);
    SourceRejects(s);
  }

  /** The output YYYY-MM-DD is not one of the input formats: converting it again gives None. */
  lemma OutputNotAccepted(d: Date)
    requires ValidDate(d) && d.year >= 1000
    ensures SafeConvertDatetime(Some(FormatIso(d))).None?
    ensures SafeConvertDatetimeTwoFormats(Some(FormatIso(d))).None?
  {
    var s := FormatIso(d);
    var y := YearText(d.year);
    var mm := Pad2(d.month);
    var dd := Pad2(d.day);
    DigitsOfFour(d.year);
    DigitsOfValue(d.year);
    assert s == y + "-" + mm + "-" + dd;
    forall i | 0 <= i < |s|
      ensures (IsDigit(s[i]) || s[i] == '-') && s[i] != '/'
    {
      if i < 4 { assert s[i] == y[i]; }
      else if i == 4 { }
      else if i < 7 { assert s[i] == mm[i - 5]; }
      else if i == 7 { }
      else { assert s[i] == dd[i - 8]; }
    }
    StripIdentity(s);
    NoSlashRejected(s);
    SplitAt3(y, mm, dd, '-');
    assert DayToken(y).None?;
    assert ParseWith(DayDashAbbrevDashYear, s).None?;
    OneWord(s);
    assert ParseWith(DaySpaceAbbrevSpaceYear, s).None?;
    assert ParseWith(DaySpaceMonthSpaceYear, s).None?;
    ScraperRejects(s);
    SourceRejects(s);
  }

  /** A text with neither '/' nor '-' is refused by the two-format copy ("7 Nov 2024" among them). */
  lemma TwoFormatsNeedSeparators(s: string)
    requires forall i :: 0 <= i < |Strip(s)| ==> Strip(s)[i] != '/' && Strip(s)[i] != '-'
    ensures SafeConvertDatetimeTwoFormats(Some(s)).None?
  {
    if s != "" {
      NoSlashRejected(Strip(s));
      NoDashRejected(Strip(s));
      SourceRejects(s);
    }
  }

  /** Three lower-case letters, as a month abbreviation is. */
  predicate LowerWord(w: string)
  {
    |w| == 3 && forall i :: 0 <= i < |w| ==> IsLowerAscii(w[i])
  }

  /** Each month abbreviation names its own month. */
  lemma AbbreviationMonth(m: int)
    requires 1 <= m <= 12
    ensures LowerWord(MonthAbbreviations[m - 1])
    ensures Lower(MonthAbbreviations[m - 1]) == MonthAbbreviations[m - 1]
    ensures MonthByName(MonthAbbreviations[m - 1], MonthAbbreviations, 0) == Some(m)
  {
    var a := MonthAbbreviations[m - 1];
    assert LowerWord(a);
    LowerIdentity(a);
    AbbreviationsDistinct();
    MonthByNameFrom(a, MonthAbbreviations, 0, m - 1);
  }

  /** No two month abbreviations are equal. */
  lemma AbbreviationsDistinct()
    ensures forall i, j :: 0 <= i < j < 12 ==> MonthAbbreviations[i] != MonthAbbreviations[j]
  {
    var ms := MonthAbbreviations;
    forall i, j | 0 <= i < j < 12
      ensures ms[i] != ms[j]
    {
      assert ms[i][0] != ms[j][0] || ms[i][1] != ms[j][1] || ms[i][2] != ms[j][2];
    }
  }

  /** The characters of "D mon YYYY": no '/' and no '-', and no space at either end. */
  lemma SpacedChars(dd: string, mon: string, y: string)
    requires |dd| == 1 && IsDigit(dd[0])
    requires LowerWord(mon)
    requires |y| == 4 && AllDigits(y)
    ensures var s := dd + " " + (mon + " " + y);
      s != "" && Strip(s) == s && forall i :: 0 <= i < |s| ==> s[i] != '-' && s[i] != '/'
  {
    var s := dd + " " + (mon + " " + y);
    forall i | 0 <= i < |s|
      ensures s[i] != '-' && s[i] != '/'
    {
      if i == 0 { assert s[i] == dd[0]; } else if i == 1 || i == 5 { } else if i < 5 { assert s[i] == mon[i - 2]; }
      else { assert s[i] == y[i - 6]; }
    }
    assert s[0] == dd[0] && s[|s| - 1] == y[3];
    StripIdentity(s);
  }

  /** The words of "D mon YYYY". */
  lemma SpacedWords(dd: string, mon: string, y: string)
    requires |dd| == 1 && IsDigit(dd[0])
    requires LowerWord(mon)
    requires |y| == 4 && AllDigits(y)
    ensures SplitWs(dd + " " + (mon + " " + y)) == [dd, mon, y]
  {
    assert forall i :: 0 <= i < |y| ==> !IsSpace(y[i]);
    assert forall i :: 0 <= i < |mon| ==> !IsSpace(mon[i]);
    assert forall i :: 0 <= i < |dd| ==> !IsSpace(dd[i]);
    ThreeWords(dd, mon, y);
  }

  /** "D mon YYYY" from its fields, the day a single digit. */
  function SpacedFields(day: int, month: int, year: int): string
    requires 1 <= day <= 9 && 1 <= month <= 12 && year >= 1
  {
    DigitsOf(day) + " " + (MonthAbbreviations[month - 1] + " " + YearText(year))
  }

  /** A text read once stripped by the third format but by neither of the first two. */
  lemma ThirdFormatReads(s: string, d: Date)
    requires s != ""
    requires ParseWith(DaySlashMonthSlashYear, Strip(s)).None? && ParseWith(DayDashAbbrevDashYear, Strip(s)).None?
    requires ParseWith(DaySpaceAbbrevSpaceYear, Strip(s)) == Some(d)
    ensures SafeConvertDatetime(Some(s)) == Some(FormatIso(d))
  {
    ThirdAttempts(Strip(s), d);
    ThirdSuccess(Attempts(ScraperFormats, Strip(s)), d);
  }

  /** The scraper's attempts on a text only its third format reads. */
  lemma ThirdAttempts(t: string, d: Date)
    requires ParseWith(DaySlashMonthSlashYear, t).None? && ParseWith(DayDashAbbrevDashYear, t).None?
    requires ParseWith(DaySpaceAbbrevSpaceYear, t) == Some(d)
    ensures var rs := Attempts(ScraperFormats, t); |rs| == 4 && rs[0].None? && rs[1].None? && rs[2] == Some(d)
  {
  }

  /** Two failures, then a success. */
  lemma ThirdSuccess(rs: seq<Option<Date>>, d: Date)
    requires |rs| == 4 && rs[0].None? && rs[1].None? && rs[2] == Some(d)
    ensures FirstSuccess(rs, 0) == Some(2)
  {
    assert FirstSuccess(rs, 2) == Some(2);
  }

  /** "D mon YYYY" with a one-digit day is read by the third format of the scraper's copy. */
  lemma SpacedDateConverts(d: Date)
    requires ValidDate(d) && d.year >= 1000 && d.day <= 9
    ensures SafeConvertDatetime(Some(SpacedFields(d.day, d.month, d.year))) == Some(FormatIso(d))
  {
    SpacedText(d);
    SpacedParse(d);
    ThirdFormatReads(SpacedFields(d.day, d.month, d.year), d);
  }

  /** "D mon YYYY" is already stripped and has neither of the separators of the first two formats. */
  lemma SpacedText(d: Date)
    requires ValidDate(d) && d.year >= 1000 && d.day <= 9
    ensures var s := SpacedFields(d.day, d.month, d.year);
      s != "" && Strip(s) == s &&
      ParseWith(DaySlashMonthSlashYear, s).None? && ParseWith(DayDashAbbrevDashYear, s).None?
  {
    var dd := DigitsOf(d.day);
    var mon := MonthAbbreviations[d.month - 1];
    var y := YearText(d.year);
    var s := SpacedFields(d.day, d.month, d.year);
    DigitsOfFour(d.year);
    DigitsOfValue(d.year);
    DigitsOfValue(d.day);
    AbbreviationMonth(d.month);
    assert |dd| == 1 && |mon| == 3 && |y| == 4;
    SpacedChars(dd, mon, y);
    NoSlashRejected(s);
    NoDashRejected(s);
  }

  /** The third format reads "D mon YYYY" as that date. */
  lemma SpacedParse(d: Date)
    requires ValidDate(d) && d.year >= 1000 && d.day <= 9
    ensures ParseWith(DaySpaceAbbrevSpaceYear, SpacedFields(d.day, d.month, d.year)) == Some(d)
  {
    var dd := DigitsOf(d.day);
    var mon := MonthAbbreviations[d.month - 1];
    var y := YearText(d.year);
    SpacedTokens(d);
    SpacedWords(dd, mon, y);
    DayMonthNameYearOf([dd, mon, y], MonthAbbreviations, d);
  }

  /** The three fields of "D mon YYYY" read as the day, the month and the year. */
  lemma SpacedTokens(d: Date)
    requires ValidDate(d) && d.year >= 1000 && d.day <= 9
    ensures var dd := DigitsOf(d.day); |dd| == 1 && IsDigit(dd[0]) && DayToken(dd) == Some(d.day)
    ensures var mon := MonthAbbreviations[d.month - 1];
      LowerWord(mon) && MonthByName(mon, MonthAbbreviations, 0) == Some(d.month)
    ensures var y := YearText(d.year); |y| == 4 && AllDigits(y) && YearToken(y) == Some(d.year)
  {
    var dd := DigitsOf(d.day);
    var y := YearText(d.year);
    DigitsOfFour(d.year);
    DigitsOfValue(d.year);
    DigitsOfValue(d.day);
    AbbreviationMonth(d.month);
    assert |dd| == 1 && |y| == 4;
    assert DayToken(dd) == Some(d.day);
  }
}
