/**
 * The command-line helpers: date normalisation for the `--date` options, the
 * integer clean-up applied to scraped rows before they are stored, and the
 * removal of rows already seen the day before.
 */
module CliHelper {

  import opened Wrappers
  import opened Text
  import opened Numbers
  import opened ODicts
  import Dates

  // ---------------------------------------------------------------- normalize_datetime

  /** The argument of `normalize_datetime`: a `datetime` or a string. */
  datatype DateArg = AsDate(date: Dates.Date) | AsText(text: string)

  /** The date a string names: `%Y-%m-%d` when it holds a dash, `%Y%m%d` otherwise. */
  function ParseDateText(s: string): (r: Option<Dates.Date>)
    ensures r.Some? ==> Dates.ValidDate(r.value)
  {
    if '-' in s then Dates.ParseYearDashMonthDashDay(s) else Dates.ParseCompactYearMonthDay(s)
  }

  /** `normalize_datetime` in the scraper's helpers: the date as `%Y%m%d`, None (logged) on a ValueError. */
  function NormalizeDatetime(arg: DateArg): (r: Option<string>)
    requires arg.AsDate? ==> Dates.ValidDate(arg.date)
    ensures arg.AsDate? ==> r == Some(Dates.FormatCompact(arg.date))
    ensures arg.AsText? ==> (r.Some? <==> ParseDateText(arg.text).Some?)
    ensures r.Some? ==> AllDigits(r.value)
  {
    match arg
    case AsDate(d) => Some(Dates.FormatCompact(d))
    case AsText(s) =>
      match ParseDateText(s)
      case Some(d) => Some(Dates.FormatCompact(d))
      case None => None
  }

  lemma NoDashInDigits(s: string)
    requires AllDigits(s)
    ensures '-' !in s
  {
  }

  /** The compact rendering of a date from year 1000 on is read back as the same date. */
  lemma CompactReadsBack(d: Dates.Date)
    requires Dates.ValidDate(d) && d.year >= 1000
    ensures ParseDateText(Dates.FormatCompact(d)) == Some(d)
  {
    NoDashInDigits(Dates.FormatCompact(d));
    Dates.ParseFormatCompact(d);
  }

  /** Normalising an already normalised date changes nothing (for four-digit years). */
  lemma NormalizeDatetimeIdempotent(arg: DateArg)
    requires arg.AsDate? ==> Dates.ValidDate(arg.date)
    requires NormalizeDatetime(arg).Some?
    requires (match arg case AsDate(d) => d.year case AsText(s) => ParseDateText(s).value.year) >= 1000
    ensures NormalizeDatetime(AsText(NormalizeDatetime(arg).value)) == NormalizeDatetime(arg)
  {
    match arg
    case AsDate(d) => CompactReadsBack(d);
    case AsText(s) => CompactReadsBack(ParseDateText(s).value);
  }

  /** `normalize_datetime` in the command-line package: the same parse, a ValueError raising `BadParameter`. */
  datatype Checked = Normalized(value: string) | BadParameter

  function NormalizeDatetimeStrict(s: string): (r: Checked)
    ensures r.BadParameter? <==> ParseDateText(s).None?
    ensures r.Normalized? ==> AllDigits(r.value)
  {
    match ParseDateText(s)
    case Some(d) => Normalized(Dates.FormatCompact(d))
    case None => BadParameter
  }

  /** The raising variant agrees with the logging one: the same text, or an error exactly where that gives None. */
  lemma StrictAgreesWithLenient(s: string)
    ensures NormalizeDatetimeStrict(s).BadParameter? <==> NormalizeDatetime(AsText(s)).None?
    ensures NormalizeDatetimeStrict(s).Normalized? ==> NormalizeDatetime(AsText(s)) == Some(NormalizeDatetimeStrict(s).value)
  {
  }

  /** `push_to_db` in the command-line package does nothing and returns None. */
  function PushToDbStub<T>(payload: T): (r: Option<bool>)
    ensures r.None?
  {
    None
  }

  // ---------------------------------------------------------------- clean_payload_*

  /** A JSON value of a scraped row; lists and objects are one case, as no conversion accepts them. */
  datatype Json = JNull | JBool(b: bool) | JInt(i: int) | JFloat(x: real) | JStr(s: string) | JContainer

  type Row = ODict<Json>

  /** Python `float(v)`; None is the ValueError or TypeError it raises. */
  function ToFloat(v: Json): (r: Option<real>)
  {
    match v
    case JBool(b) => Some(if b then 1.0 else 0.0)
    case JInt(i) => Some(i as real)
    case JFloat(x) => Some(x)
    case JStr(s) => ParseFloat(s)
    case _ => None
  }

  /** `int(float(v))`, or None when either conversion fails. */
  function ToCount(v: Json): (r: Json)
    ensures r.JNull? || r.JInt?
    ensures r.JInt? <==> ToFloat(v).Some?
    ensures r.JInt? && ToFloat(v).value >= 0.0 ==> r.i as real <= ToFloat(v).value < r.i as real + 1.0
  {
    match ToFloat(v)
    case Some(x) => JInt(Trunc(x))
    case None => JNull
  }

  /** An integer is its own count, and so is the decimal text of a natural number. */
  lemma ToCountFixes(n: nat, i: int)
    ensures ToCount(JInt(i)) == JInt(i)
    ensures ToCount(JStr(DigitsOf(n))) == JInt(n)
  {
    ParseFloatOfDigits(n);
  }

  /** A fraction is cut towards zero, on either side of it. */
  lemma ToCountTruncates()
    ensures ToCount(JFloat(2.75)) == JInt(2)
    ensures ToCount(JFloat(-2.75)) == JInt(-2)
  {
    assert Trunc(2.75) == 2;
    assert Trunc(-2.75) == -2;
  }

  /** One key of the inner loop: a present, non-None value becomes its count. */
  function CleanKey(row: Row, k: string): Row
  {
    match Get(row, k)
    case Some(v) => if v != JNull then Put(row, k, ToCount(v)) else row
    case None => row
  }

  /** The inner loop over the given keys, first to last. */
  function CleanKeys(row: Row, ks: seq<string>): Row
    decreases |ks|
  {
    if ks == [] then row else CleanKey(CleanKeys(row, ks[..|ks| - 1]), ks[|ks| - 1])
  }

  /** What cleaning does to one value. */
  function CleanedValue(v: Option<Json>): Option<Json>
  {
    match v
    case Some(x) => if x != JNull then Some(ToCount(x)) else v
    case None => None
  }

  lemma CleanKeyFacts(row: Row, k: string)
    requires DistinctKeys(row)
    ensures DistinctKeys(CleanKey(row, k)) && Keys(CleanKey(row, k)) == Keys(row)
    ensures Get(CleanKey(row, k), k) == CleanedValue(Get(row, k))
    ensures forall k' :: k' != k ==> Get(CleanKey(row, k), k') == Get(row, k')
  {
    if Get(row, k).Some? && Get(row, k).value != JNull {
      PutFacts(row, k, ToCount(Get(row, k).value));
    }
  }

  /**
   * Cleaning a row over distinct keys keeps its keys in their order, turns each
   * listed key's value into its count (None and absent keys stay as they are)
   * and leaves every other key's value untouched.
   */
  lemma {:induction false} CleanKeysFacts(row: Row, ks: seq<string>)
    requires DistinctKeys(row) && forall i, j :: 0 <= i < j < |ks| ==> ks[i] != ks[j]
    ensures DistinctKeys(CleanKeys(row, ks)) && Keys(CleanKeys(row, ks)) == Keys(row)
    ensures forall k :: k in ks ==> Get(CleanKeys(row, ks), k) == CleanedValue(Get(row, k))
    ensures forall k :: k !in ks ==> Get(CleanKeys(row, ks), k) == Get(row, k)
    decreases |ks|
  {
    if ks != [] {
      var init := ks[..|ks| - 1];
      var last := ks[|ks| - 1];
      CleanKeysFacts(row, init);
      CleanKeyFacts(CleanKeys(row, init), last);
      assert ks == init + [last];
      assert last !in init;
    }
  }

  /** Cleaning twice over the same distinct keys is cleaning once: a count is its own count. */
  lemma CleanKeysIdempotent(row: Row, ks: seq<string>)
    requires DistinctKeys(row) && forall i, j :: 0 <= i < j < |ks| ==> ks[i] != ks[j]
    ensures CleanKeys(CleanKeys(row, ks), ks) == CleanKeys(row, ks)
  {
    var once := CleanKeys(row, ks);
    CleanKeysFacts(row, ks);
    CleanKeysFacts(once, ks);
    forall k
      ensures Get(CleanKeys(once, ks), k) == Get(once, k)
    {
      if k in ks && Get(row, k).Some? && Get(row, k).value != JNull {
        var c := ToCount(Get(row, k).value);
        if c.JInt? {
          assert ToCount(c) == c;
        }
      }
    }
    EqualByGets(CleanKeys(once, ks), once);
  }

  const BuybackCountKeys: seq<string> := ["total_shares_purchased", "cumulative_purchased", "treasury_shares_after_purchase"]
  const FilingCountKeys: seq<string> := ["number_of_stock", "shares_before", "shares_after"]
  const NameKey: string := "shareholder_name"

  lemma CountKeysDistinct()
    ensures forall i, j :: 0 <= i < j < |BuybackCountKeys| ==> BuybackCountKeys[i] != BuybackCountKeys[j]
    ensures forall i, j :: 0 <= i < j < |FilingCountKeys| ==> FilingCountKeys[i] != FilingCountKeys[j]
    ensures NameKey !in FilingCountKeys
  {
  }

  /** One row of `clean_payload_sgx_buyback`. */
  function CleanBuybackRow(row: Row): Row
  {
    CleanKeys(row, BuybackCountKeys)
  }

  function CleanBuybackRows(rows: seq<Row>): (r: seq<Row>)
    ensures |r| == |rows| && forall i :: 0 <= i < |rows| ==> r[i] == CleanBuybackRow(rows[i])
  {
    seq(|rows|, i requires 0 <= i < |rows| => CleanBuybackRow(rows[i]))
  }

  /**
   * `clean_payload_sgx_buyback`: each row is rewritten in place, key by key; the
   * same list comes back (an empty one when the payload is empty).
   */
  method CleanPayloadBuyback(payload: array<Row>) returns (r: seq<Row>)
    modifies payload
    ensures payload[..] == CleanBuybackRows(old(payload[..]))
    ensures r == payload[..]
  {
    if payload.Length == 0 {
      return [];
    }
    for i := 0 to payload.Length
      invariant forall j :: 0 <= j < i ==> payload[j] == CleanBuybackRow(old(payload[j]))
      invariant forall j :: i <= j < payload.Length ==> payload[j] == old(payload[j])
    {
      var row := CleanRowCounts(payload[i], BuybackCountKeys);
      payload[i] := row;
    }
    r := payload[..];
  }

  /** The inner loop of both clean-ups: each listed key that holds a value is converted, in list order. */
  method CleanRowCounts(row0: Row, keys: seq<string>) returns (row: Row)
    ensures row == CleanKeys(row0, keys)
  {
    row := row0;
    for n := 0 to |keys|
      invariant row == CleanKeys(row0, keys[..n])
    {
      assert keys[..n + 1][..n] == keys[..n];
      var key := keys[n];
      if Get(row, key).Some? && Get(row, key).value != JNull {
        row := Put(row, key, ToCount(Get(row, key).value));
      }
    }
    assert keys[..|keys|] == keys;
  }

  /** A cleaned buyback row keeps its keys, holds counts under the three count keys and nothing else changes. */
  lemma CleanBuybackRowFacts(row: Row)
    requires DistinctKeys(row)
    ensures Keys(CleanBuybackRow(row)) == Keys(row)
    ensures forall k :: k in BuybackCountKeys ==> Get(CleanBuybackRow(row), k) == CleanedValue(Get(row, k))
    ensures forall k :: k !in BuybackCountKeys ==> Get(CleanBuybackRow(row), k) == Get(row, k)
    ensures CleanBuybackRow(CleanBuybackRow(row)) == CleanBuybackRow(row)
  {
    CountKeysDistinct();
    CleanKeysFacts(row, BuybackCountKeys);
    CleanKeysIdempotent(row, BuybackCountKeys);
  }

  /** A row `clean_payload_sgx_filings` can handle: its shareholder name is a string (otherwise it raises). */
  predicate HasTextName(row: Row)
  {
    Get(row, NameKey).Some? && Get(row, NameKey).value.JStr?
  }

  /** An all-uppercase shareholder name is title-cased. */
  function CleanName(row: Row): Row
    requires HasTextName(row)
  {
    var name := Get(row, NameKey).value.s;
    if IsUpperWord(name) then Put(row, NameKey, JStr(Title(name))) else row
  }

  method TitleCaseName(row0: Row) returns (row: Row)
    requires HasTextName(row0)
    ensures row == CleanName(row0)
  {
    row := row0;
    var name := Get(row, NameKey).value.s;
    if IsUpperWord(name) {
      row := Put(row, NameKey, JStr(Title(name)));
    }
  }

  /** One row of `clean_payload_sgx_filings`. */
  function CleanFilingRow(row: Row): Row
    requires HasTextName(row)
  {
    CleanKeys(CleanName(row), FilingCountKeys)
  }

  predicate AllHaveTextName(rows: seq<Row>)
  {
    forall i :: 0 <= i < |rows| ==> HasTextName(rows[i])
  }

  function CleanFilingRows(rows: seq<Row>): (r: seq<Row>)
    requires AllHaveTextName(rows)
    ensures |r| == |rows| && forall i :: 0 <= i < |rows| ==> r[i] == CleanFilingRow(rows[i])
  {
    seq(|rows|, i requires 0 <= i < |rows| => CleanFilingRow(rows[i]))
  }

  /** What `clean_payload_sgx_filings` returns: the cleaned list, or the pair `([], [])` for an empty payload. */
  datatype Cleaned = Rows(rows: seq<Row>) | EmptyPair

  method CleanPayloadFilings(payload: array<Row>) returns (r: Cleaned)
    requires AllHaveTextName(payload[..])
    modifies payload
    ensures payload[..] == CleanFilingRows(old(payload[..]))
    ensures r == if payload.Length == 0 then EmptyPair else Rows(payload[..])
  {
    if payload.Length == 0 {
      return EmptyPair;
    }
    for i := 0 to payload.Length
      invariant forall j :: 0 <= j < i ==> payload[j] == CleanFilingRow(old(payload[j]))
      invariant forall j :: i <= j < payload.Length ==> payload[j] == old(payload[j])
    {
      assert HasTextName(old(payload[..])[i]);
      var row := TitleCaseName(payload[i]);
      row := CleanRowCounts(row, FilingCountKeys);
      payload[i] := row;
    }
    r := Rows(payload[..]);
  }

  /** Title case is stable: title-casing twice is title-casing once. */
  lemma {:induction false} TitleFromIdempotent(s: string, afterLetter: bool)
    ensures TitleFrom(TitleFrom(s, afterLetter), afterLetter) == TitleFrom(s, afterLetter)
    decreases |s|
  {
    if s != "" {
      var t := TitleFrom(s, afterLetter);
      TitleFromIdempotent(s[1..], IsLetter(s[0]));
      assert t[1..] == TitleFrom(s[1..], IsLetter(s[0]));
      assert IsLetter(t[0]) == IsLetter(s[0]);
      assert TitleFrom(t, afterLetter) == [t[0]] + TitleFrom(t[1..], IsLetter(t[0]));
      assert t == [t[0]] + t[1..];
    }
  }

  /**
   * A cleaned filing row keeps its keys, carries the title-cased name when the
   * name was all upper case, counts under the three count keys, and nothing
   * else changes; cleaning it again changes nothing.
   */
  lemma CleanFilingRowFacts(row: Row)
    requires DistinctKeys(row) && HasTextName(row)
    ensures Keys(CleanFilingRow(row)) == Keys(row)
    ensures var name := Get(row, NameKey).value.s;
      Get(CleanFilingRow(row), NameKey) == Some(JStr(if IsUpperWord(name) then Title(name) else name))
    ensures forall k :: k in FilingCountKeys ==> Get(CleanFilingRow(row), k) == CleanedValue(Get(row, k))
    ensures forall k :: k !in FilingCountKeys && k != NameKey ==> Get(CleanFilingRow(row), k) == Get(row, k)
    ensures HasTextName(CleanFilingRow(row)) && CleanFilingRow(CleanFilingRow(row)) == CleanFilingRow(row)
  {
    CountKeysDistinct();
    var name := Get(row, NameKey).value.s;
    var named := CleanName(row);
    if IsUpperWord(name) {
      PutFacts(row, NameKey, JStr(Title(name)));
    }
    CleanKeysFacts(named, FilingCountKeys);
    var once := CleanFilingRow(row);
    var renamed := CleanName(once);
    TitleFromIdempotent(name, false);
    if IsUpperWord(Get(once, NameKey).value.s) {
      PutFacts(once, NameKey, JStr(Title(Get(once, NameKey).value.s)));
    }
    assert Get(renamed, NameKey) == Get(once, NameKey);
    forall k
      ensures Get(renamed, k) == Get(once, k)
    {
    }
    EqualByGets(renamed, once);
    CleanKeysIdempotent(named, FilingCountKeys);
  }

  // ---------------------------------------------------------------- remove_duplicate

  const UrlKey: string := "url"

  /**
   * A url as Python's set membership compares it: None, a number (True and
   * False are the numbers 1 and 0, and 1 equals 1.0) or a text.
   */
  datatype UrlValue = NoUrl | NumUrl(n: real) | TextUrl(t: string)

  /** The hashed form of a value; None for a list or an object, which are unhashable (a TypeError). */
  function HashValue(v: Json): (r: Option<UrlValue>)
    ensures r.None? <==> v.JContainer?
    ensures r == Some(NoUrl) <==> v.JNull?
    ensures r.Some? && r.value.TextUrl? <==> v.JStr?
    ensures v.JStr? ==> r == Some(TextUrl(v.s))
    ensures ToFloat(v).Some? && !v.JStr? ==> r == Some(NumUrl(ToFloat(v).value))
  {
    match v
    case JNull => Some(NoUrl)
    case JBool(b) => Some(NumUrl(if b then 1.0 else 0.0))
    case JInt(i) => Some(NumUrl(i as real))
    case JFloat(x) => Some(NumUrl(x))
    case JStr(s) => Some(TextUrl(s))
    case JContainer => None
  }

  /** `item.get("url")` as a set member: a missing key and an explicit null are both None. */
  function UrlOf(row: Row): (r: Option<UrlValue>)
    ensures r == Some(NoUrl) <==> Get(row, UrlKey).None? || Get(row, UrlKey) == Some(JNull)
    ensures r.None? <==> Get(row, UrlKey).Some? && Get(row, UrlKey).value.JContainer?
  {
    HashValue(Get(row, UrlKey).GetOr(JNull))
  }

  predicate UrlMissingOrNull(row: Row)
  {
    Get(row, UrlKey).None? || Get(row, UrlKey) == Some(JNull)
  }

  /** Every row's url can be hashed, so building or probing the set of urls does not raise. */
  predicate UrlsHashable(rows: seq<Row>)
  {
    forall i :: 0 <= i < |rows| ==> UrlOf(rows[i]).Some?
  }

  /** The url values of yesterday's rows. */
  function SeenUrls(rows: seq<Row>): (r: set<Option<UrlValue>>)
    ensures forall u :: u in r <==> exists y :: y in rows && UrlOf(y) == u
  {
    set y | y in rows :: UrlOf(y)
  }

  /** The rows whose url is not among the given ones, in their order. */
  function KeepUnseen(rows: seq<Row>, seen: set<Option<UrlValue>>): (r: seq<Row>)
    ensures |r| <= |rows|
    ensures forall i :: 0 <= i < |r| ==> UrlOf(r[i]) !in seen
    decreases |rows|
  {
    if rows == [] then []
    else (if UrlOf(rows[0]) in seen then [] else [rows[0]]) + KeepUnseen(rows[1..], seen)
  }

  /**
   * `remove_duplicate` once both files are read: today's rows, less those whose
   * url appeared yesterday; None is the TypeError an unhashable url raises.
   */
  function RemoveDuplicate(today: seq<Row>, yesterday: seq<Row>): (r: Option<seq<Row>>)
    ensures yesterday == [] ==> r == Some(today)
    ensures yesterday != [] ==> (r.None? <==> !UrlsHashable(yesterday) || !UrlsHashable(today))
    ensures r.Some? ==> |r.value| <= |today|
  {
    if yesterday == [] then Some(today)
    else if !UrlsHashable(yesterday) || !UrlsHashable(today) then None
    else Some(KeepUnseen(today, SeenUrls(yesterday)))
  }

  lemma {:induction false} KeepUnseenMembers(rows: seq<Row>, seen: set<Option<UrlValue>>)
    ensures forall x :: x in KeepUnseen(rows, seen) <==> x in rows && UrlOf(x) !in seen
    decreases |rows|
  {
    if rows != [] {
      KeepUnseenMembers(rows[1..], seen);
      assert rows == [rows[0]] + rows[1..];
    }
  }

  /** Filtering distributes over concatenation, so the kept rows stay in their order. */
  lemma {:induction false} KeepUnseenConcat(a: seq<Row>, b: seq<Row>, seen: set<Option<UrlValue>>)
    ensures KeepUnseen(a + b, seen) == KeepUnseen(a, seen) + KeepUnseen(b, seen)
    decreases |a|
  {
    if a != [] {
      KeepUnseenConcat(a[1..], b, seen);
      assert (a + b)[0] == a[0] && (a + b)[1..] == a[1..] + b;
    } else {
      assert a + b == b;
    }
  }

  lemma {:induction false} KeepUnseenIdempotent(rows: seq<Row>, seen: set<Option<UrlValue>>)
    ensures KeepUnseen(KeepUnseen(rows, seen), seen) == KeepUnseen(rows, seen)
    decreases |rows|
  {
    if rows != [] {
      KeepUnseenIdempotent(rows[1..], seen);
      var head := if UrlOf(rows[0]) in seen then [] else [rows[0]];
      KeepUnseenConcat(head, KeepUnseen(rows[1..], seen), seen);
      if head != [] {
        assert ([rows[0]])[1..] == [];
      }
    }
  }

  /**
   * With no rows yesterday today's rows come back as they are; otherwise the
   * call raises exactly when some url is a list or an object, and when it does
   * not, a row is kept exactly when it is one of today's and no row of
   * yesterday has a url equal to its own; removing again removes nothing.
   */
  lemma RemoveDuplicateFacts(today: seq<Row>, yesterday: seq<Row>)
    ensures yesterday == [] ==> RemoveDuplicate(today, yesterday) == Some(today)
    ensures yesterday != [] && RemoveDuplicate(today, yesterday).Some? ==>
      forall x :: x in RemoveDuplicate(today, yesterday).value <==>
        x in today && forall y :: y in yesterday ==> UrlOf(x) != UrlOf(y)
    ensures RemoveDuplicate(today, yesterday).Some? ==>
      RemoveDuplicate(RemoveDuplicate(today, yesterday).value, yesterday) == RemoveDuplicate(today, yesterday)
  {
    if yesterday != [] && RemoveDuplicate(today, yesterday).Some? {
      var kept := KeepUnseen(today, SeenUrls(yesterday));
      KeepUnseenMembers(today, SeenUrls(yesterday));
      KeepUnseenIdempotent(today, SeenUrls(yesterday));
      assert UrlsHashable(kept) by {
        forall i | 0 <= i < |kept|
          ensures UrlOf(kept[i]).Some?
        {
          assert kept[i] in today;
        }
      }
    }
  }

  /** A missing url and a null one are the same None: once yesterday has either, every such row of today goes. */
  lemma UrlLessRowsDropTogether(today: seq<Row>, yesterday: seq<Row>, y: Row)
    requires y in yesterday && UrlMissingOrNull(y)
    ensures RemoveDuplicate(today, yesterday).Some? ==>
      forall x :: x in RemoveDuplicate(today, yesterday).value ==> !UrlMissingOrNull(x)
  {
    KeepUnseenMembers(today, SeenUrls(yesterday));
  }

  /** A row without a url is a duplicate of one whose url is null. */
  lemma MissingUrlMatchesNull()
    ensures RemoveDuplicate([[]], [[(UrlKey, JNull)]]) == Some([])
  {
    var y: Row := [(UrlKey, JNull)];
    assert Get(y, UrlKey) == Some(JNull);
    assert UrlOf([]) == UrlOf(y);
    assert SeenUrls([y]) == {Some(NoUrl)};
  }

  /** The url 1, the url 1.0 and the url True are one set member. */
  lemma NumericUrlsCompareAsNumbers()
    ensures UrlOf([(UrlKey, JInt(1))]) == UrlOf([(UrlKey, JFloat(1.0))]) == UrlOf([(UrlKey, JBool(true))])
    ensures RemoveDuplicate([[(UrlKey, JBool(true))]], [[(UrlKey, JInt(1))]]) == Some([])
  {
    var y: Row := [(UrlKey, JInt(1))];
    var x: Row := [(UrlKey, JBool(true))];
    assert Get(y, UrlKey) == Some(JInt(1));
    assert Get(x, UrlKey) == Some(JBool(true));
    assert Get([(UrlKey, JFloat(1.0))], UrlKey) == Some(JFloat(1.0));
    assert UrlOf(x) == UrlOf(y);
    assert SeenUrls([y]) == {Some(NumUrl(1.0))};
  }

  /** A list-valued url among yesterday's rows raises, whatever today holds. */
  lemma UnhashableUrlRaises(today: seq<Row>, yesterday: seq<Row>, y: Row)
    requires y in yesterday && Get(y, UrlKey) == Some(JContainer)
    ensures RemoveDuplicate(today, yesterday).None?
  {
  }
}
