/**
 * Per-filing orchestration (sgx_scraper/fetch_sgx_filings/parser_sgx_filings.py): the share
 * counts picked from the merged holdings table, the transaction details read from a section
 * with the page-fallback cascade, the splitting of one detail into several, the join of a
 * section's parts into records with the no-change filter, the document-level fallback and the
 * voting-shares gate.
 *
 * The text readers are parameters (`Readers`): the three lazy captures `extract_date`,
 * `extract_number_of_stock` and `extract_value` are oracles, the converters and the finders of
 * the special cases are the models of the other modules, wired in by `Actual`.
 */
module FilingRecords {

  import opened Wrappers
  import opened Text
  import opened Numbers
  import opened ODicts
  import opened Regex
  import FilingValues
  import ParserHelper
  import Checkboxes
  import PdfText
  import ShareTables

  // ---------------------------------------------------------------- records

  /** The transaction fields of one detail, as the detail dict lists them. */
  datatype Detail = Detail(transactionDate: Option<string>, numberOfStock: Option<real>, value: Option<real>,
                           pricePerShare: Option<real>)

  /** `base_details` before anything is read. */
  const BaseDetail: Detail := Detail(None, None, None, None)

  /** The holdings before and after the transaction, as `build_individual_share_record` returns them. */
  datatype Holdings = Holdings(sharesBefore: Option<real>, sharesBeforePercentage: Option<real>,
                               sharesAfter: Option<real>, sharesAfterPercentage: Option<real>)

  /** A transaction record: name, type, the detail fields, then the holdings fields. */
  datatype Record = Record(shareholderName: Option<string>, transactionType: Option<string>,
                           transactionDate: Option<string>, numberOfStock: Option<real>, value: Option<real>,
                           pricePerShare: Option<real>, sharesBefore: Option<real>, sharesBeforePercentage: Option<real>,
                           sharesAfter: Option<real>, sharesAfterPercentage: Option<real>)

  /** The result of a step that can raise: the value, or the exception that leaves the caller. */
  datatype Outcome<T> = Done(value: T) | Raised

  /**
   * The readers the orchestration calls: the three text extractors, `safe_convert_datetime`,
   * `safe_convert_float`, `build_value` (with its FX lookup bound), `build_price_per_share`,
   * and the `re.findall` results of the three special-case patterns (group 1, group 2).
   */
  datatype Readers = Readers(
    date: string -> Option<string>,
    numberOfStock: string -> Option<string>,
    value: string -> Option<string>,
    toDate: Option<string> -> Option<string>,
    toFloat: Option<string> -> Option<real>,
    buildValue: (Option<string>, Option<real>) -> Option<real>,
    pricePerShare: (Option<string>, Option<real>) -> Option<real>,
    unitPrices: string -> seq<(string, string)>,
    quantityDates: string -> seq<(string, string)>,
    priceDates: string -> seq<(string, string)>)

  // ---------------------------------------------------------------- special-case patterns

  const Spaces: Elem := Rep(Space, 1, None)
  const OptSpaces: Elem := Rep(Space, 0, None)

  /** `an?\s+` */
  const Article: Pattern := [Lit("a"), Rep(Chars("n"), 0, Some(1)), Spaces]

  /** `(?:units?|shares?|securit(?:y|ies)|stapled\s+securit(?:y|ies))` */
  const UnitWord: Pattern := AnyOf([[Lit("unit"), FilingValues.OptS], [Lit("share"), FilingValues.OptS],
    FilingValues.Security, [Lit("stapled"), Spaces] + FilingValues.Security])

  /** `(?:unit|share|security|stapled\s+security)` */
  const PerUnitWord: Pattern := AnyOf([[Lit("unit")], [Lit("share")], [Lit("security")], [Lit("stapled"), Spaces, Lit("security")]])

  /**
   * `multi_transaction_pattern`: "<qty> units at [an issue] [a price] [of] [currency] <price> per unit",
   * the quantity in group 1 and the price in group 2.
   */
  const MultiTransactionPattern: Pattern :=
    [Group(1, FilingValues.NumberBody), OptSpaces] + UnitWord +
    [Spaces, Lit("at"), Spaces, Opt([Opt(Article), Lit("issue"), Spaces]), Opt([Opt(Article), Lit("price"), Spaces]),
     Opt([Lit("of"), Spaces]), Opt(FilingValues.PriceCurrency), OptSpaces, Group(2, FilingValues.NumberBody),
     OptSpaces, Lit("per"), Spaces] + PerUnitWord

  /** `\d{1,2}\s+\w+\s+\d{4}`: a date such as "7 Nov 2024". */
  const DateBody: Pattern := [Rep(Digit, 1, Some(2)), Spaces, Rep(Word, 1, None), Spaces, Rep(Digit, 4, Some(4))]

  /** `(?:shares?|units?|securit(?:y|ies))` */
  const ShareWord: Pattern := AnyOf([[Lit("share"), FilingValues.OptS], [Lit("unit"), FilingValues.OptS], FilingValues.Security])

  /** `number_date_pattern`: "<qty> shares on <date>". */
  const NumberDatePattern: Pattern :=
    [Group(1, FilingValues.NumberBody), Spaces] + ShareWord + [Spaces, Lit("on"), Spaces, Group(2, DateBody)]

  /** `(?:sg\$|s\$|usd|sgd|\$)` */
  const DateCurrency: Pattern := AnyOf([[Lit("sg$")], [Lit("s$")], [Lit("usd")], [Lit("sgd")], [Lit("$")]])

  /** `price_date_pattern`: "[paid] [currency] <price> per share on <date>". */
  const PriceDatePattern: Pattern :=
    [Opt([Lit("paid"), Spaces]), Opt(DateCurrency), OptSpaces, Group(1, FilingValues.NumberBody), Spaces, Lit("per"), Spaces]
    + AnyOf([[Lit("share")], [Lit("unit")], [Lit("security")]]) + [Spaces, Lit("on"), Spaces, Group(2, DateBody)]

  /** `re.findall` with two groups: per match the texts of groups 1 and 2 ("" for a group that took no part). */
  function FindPairs(p: Pattern, t: string): (r: seq<(string, string)>)
  {
    var hits := FindAll(p, t, true);
    seq(|hits|, i requires 0 <= i < |hits| => (GroupText(t, hits[i], 1).GetOr(""), GroupText(t, hits[i], 2).GetOr("")))
  }

  /** `safe_convert_float` on an optional text. */
  function ConvertFloat(s: Option<string>): (r: Option<real>)
    ensures s.None? ==> r.None?
  {
    if s.None? then None else FilingValues.SafeConvertFloatSpec(s.value)
  }

  /** The readers of the scraper, given the three extractors and the FX oracle. */
  function Actual(date: string -> Option<string>, numberOfStock: string -> Option<string>, value: string -> Option<string>,
                  fx: (string, Option<real>) -> Option<real>): (rd: Readers)
    ensures rd.date == date && rd.numberOfStock == numberOfStock && rd.value == value
  {
    Readers(date, numberOfStock, value,
      ParserHelper.SafeConvertDatetime,
      ConvertFloat,
      (raw, qty) => FilingValues.BuildValue(raw, qty, fx),
      FilingValues.BuildPricePerShare,
      t => FindPairs(MultiTransactionPattern, t),
      t => FindPairs(NumberDatePattern, t),
      t => FindPairs(PriceDatePattern, t))
  }

  // ---------------------------------------------------------------- parse_share_table_values

  /** The four "Total" cells: before, before %, after, after %. */
  datatype ShareCells = ShareCells(before: Option<string>, beforePercentage: Option<string>,
                                   after: Option<string>, afterPercentage: Option<string>)

  /** The merged-table rows that carry values. */
  const ValueRows: seq<nat> := [1, 2, 4, 5]

  /** The cell [3] of row `i`, when `i` is a value row with at least four cells. */
  function TotalCell(t: ShareTables.Table, i: nat): (r: seq<Option<string>>)
    ensures |r| <= 1
  {
    if i < |t| && i in ValueRows && |t[i]| >= 4 then [t[i][3]] else []
  }

  /** `table_values` after the rows below `n`. */
  function TotalCells(t: ShareTables.Table, n: nat): (r: seq<Option<string>>)
    decreases n
  {
    if n == 0 then [] else TotalCells(t, n - 1) + TotalCell(t, n - 1)
  }

  /** Slot `k` of the kept cells, None when fewer were kept. */
  function Slot(vs: seq<Option<string>>, k: nat): Option<string>
  {
    if k < |vs| then vs[k] else None
  }

  function CellsOf(vs: seq<Option<string>>): ShareCells
  {
    ShareCells(Slot(vs, 0), Slot(vs, 1), Slot(vs, 2), Slot(vs, 3))
  }

  /** `parse_share_table_values` on the merged table: None (a single None) when no table matched. */
  function ShareCellsSpec(table: Option<ShareTables.Table>): Option<ShareCells>
  {
    match table
    case None => None
    case Some(t) => Some(CellsOf(TotalCells(t, |t|)))
  }

  /** Walks the rows, keeping cell [3] of the value rows with at least four cells. */
  method ParseShareTableValues(table: Option<ShareTables.Table>) returns (r: Option<ShareCells>)
    ensures r == ShareCellsSpec(table)
  {
    if table.None? {
      return None;
    }
    var t := table.value;
    var values: seq<Option<string>> := [];
    for index := 0 to |t|
      invariant values == TotalCells(t, index)
    {
      if index in ValueRows && |t[index]| >= 4 {
        values := values + [t[index][3]];
      }
    }
    r := Some(CellsOf(values));
  }

  /** Only rows 1, 2, 4 and 5 contribute, in that order: the kept cells are theirs concatenated. */
  lemma {:induction false} TotalCellsClosedForm(t: ShareTables.Table, n: nat)
    ensures TotalCells(t, n) ==
      (if 1 < n then TotalCell(t, 1) else []) + (if 2 < n then TotalCell(t, 2) else []) +
      (if 4 < n then TotalCell(t, 4) else []) + (if 5 < n then TotalCell(t, 5) else [])
    decreases n
  {
    if n > 0 {
      TotalCellsClosedForm(t, n - 1);
      var i := n - 1;
      if i !in ValueRows {
        assert TotalCell(t, i) == [];
      }
    }
  }

  /**
   * A value row with fewer than four cells shifts the later values forward: with row 2 short and
   * rows 1, 4 and 5 complete, "before %" reads row 4, "after" reads row 5 and "after %" is None.
   */
  lemma ShortRowShifts(t: ShareTables.Table)
    requires |t| >= 6 && |t[1]| >= 4 && |t[2]| < 4 && |t[4]| >= 4 && |t[5]| >= 4
    ensures ShareCellsSpec(Some(t)) == Some(ShareCells(t[1][3], t[4][3], t[5][3], None))
  {
    TotalCellsClosedForm(t, |t|);
    assert TotalCells(t, |t|) == [t[1][3], t[4][3], t[5][3]];
  }

  /** With all four value rows complete, the cells are exactly their column 3. */
  lemma CompleteRowsRead(t: ShareTables.Table)
    requires |t| >= 6 && |t[1]| >= 4 && |t[2]| >= 4 && |t[4]| >= 4 && |t[5]| >= 4
    ensures ShareCellsSpec(Some(t)) == Some(ShareCells(t[1][3], t[2][3], t[4][3], t[5][3]))
  {
    TotalCellsClosedForm(t, |t|);
    assert TotalCells(t, |t|) == [t[1][3], t[2][3], t[4][3], t[5][3]];
  }

  // ---------------------------------------------------------------- build_individual_share_record

  /** `build_individual_share_record`: the four numbers; unpacking a single None raises. */
  function HoldingsOf(rd: Readers, cells: Option<ShareCells>): (r: Outcome<Holdings>)
    ensures r.Raised? <==> cells.None?
    ensures cells.Some? ==>
              r.value.sharesBefore == rd.toFloat(cells.value.before) && r.value.sharesAfter == rd.toFloat(cells.value.after)
  {
    match cells
    case None => Raised
    case Some(c) =>
      Done(Holdings(rd.toFloat(c.before), rd.toFloat(c.beforePercentage), rd.toFloat(c.after), rd.toFloat(c.afterPercentage)))
  }

  // ---------------------------------------------------------------- the page-fallback cascade

  /** What one reading yields: date, number, value, and the two raw texts. */
  datatype Attempt = Attempt(date: Option<string>, numberOfStock: Option<real>, value: Option<real>,
                             rawValue: Option<string>, rawNumberOfStock: Option<string>)

  /** The cascade stops once a value or a number is truthy (0 counts as missing). */
  predicate Found(a: Attempt)
  {
    TruthyReal(a.value) || TruthyReal(a.numberOfStock)
  }

  /** The fields read from a text; `date` is kept when it is already known. */
  function ReadText(rd: Readers, text: string, date: Option<string>): (a: Attempt)
    ensures TruthyString(date) ==> a.date == date
    ensures a.numberOfStock == rd.toFloat(a.rawNumberOfStock) && a.value == rd.buildValue(a.rawValue, a.numberOfStock)
  {
    var d := if TruthyString(date) then date else rd.toDate(rd.date(text));
    var rawNumber := rd.numberOfStock(text);
    var number := rd.toFloat(rawNumber);
    var rawValue := rd.value(text);
    Attempt(d, number, rd.buildValue(rawValue, number), rawValue, rawNumber)
  }

  /** `pdf_object.pages[k]` for a Python index: negative indices count from the end. */
  function PageIndex(n: nat, k: int): (r: Option<nat>)
    ensures r.Some? ==> r.value < n && (r.value == k || r.value == k + n)
    ensures r.None? <==> k >= n || k < -(n as int)
  {
    if 0 <= k < n then Some(k as nat) else if -(n as int) <= k < 0 then Some((k + n) as nat) else None
  }

  /**
   * `fallback_extract_transaction_detail` on the pages `idxs` in turn, stopping at the first
   * reading that finds a value or a number; an index outside the document raises (None).
   */
  function Cascade(rd: Readers, texts: seq<string>, idxs: seq<int>, a: Attempt): (r: Option<Attempt>)
    decreases |idxs|
  {
    if |idxs| == 0 then Some(a)
    else
      match PageIndex(|texts|, idxs[0])
      case None => None
      case Some(k) =>
        var next := ReadText(rd, texts[k], a.date);
        if Found(next) then Some(next) else Cascade(rd, texts, idxs[1..], next)
  }

  /** The two fallback loops: pages p, p+1, p+2, then p-1, p-2, each run only while nothing was found. */
  function AfterFallback(rd: Readers, texts: seq<string>, p: int, a: Attempt): (r: Option<Attempt>)
  {
    var forward := if Found(a) then Some(a) else Cascade(rd, texts, [p, p + 1, p + 2], a);
    match forward
    case None => None
    case Some(b) => if Found(b) then Some(b) else Cascade(rd, texts, [p - 1, p - 2], b)
  }

  /** One fallback loop, breaking at the first page that yields a value or a number. */
  method RunCascade(rd: Readers, texts: seq<string>, idxs: seq<int>, a: Attempt) returns (r: Option<Attempt>)
    ensures r == Cascade(rd, texts, idxs, a)
  {
    var cur := a;
    var i := 0;
    while i < |idxs|
      invariant 0 <= i <= |idxs|
      invariant Cascade(rd, texts, idxs, a) == Cascade(rd, texts, idxs[i..], cur)
    {
      assert idxs[i..][1..] == idxs[i + 1..];
      var k := PageIndex(|texts|, idxs[i]);
      if k.None? {
        return None;
      }
      cur := ReadText(rd, texts[k.value], cur.date);
      if Found(cur) {
        return Some(cur);
      }
      i := i + 1;
    }
    return Some(cur);
  }

  /** The cascade raises only on a missing page, and it always answers when every page exists. */
  lemma {:induction false} CascadeFailsOnMissingPage(rd: Readers, texts: seq<string>, idxs: seq<int>, a: Attempt)
    ensures Cascade(rd, texts, idxs, a).None? ==> exists j :: 0 <= j < |idxs| && PageIndex(|texts|, idxs[j]).None?
    ensures (forall j :: 0 <= j < |idxs| ==> PageIndex(|texts|, idxs[j]).Some?) ==> Cascade(rd, texts, idxs, a).Some?
    decreases |idxs|
  {
    if |idxs| > 0 && PageIndex(|texts|, idxs[0]).Some? {
      var next := ReadText(rd, texts[PageIndex(|texts|, idxs[0]).value], a.date);
      CascadeFailsOnMissingPage(rd, texts, idxs[1..], next);
      if Cascade(rd, texts, idxs, a).None? {
        var j :| 0 <= j < |idxs[1..]| && PageIndex(|texts|, idxs[1..][j]).None?;
        assert idxs[j + 1] == idxs[1..][j];
      }
      if forall j :: 0 <= j < |idxs| ==> PageIndex(|texts|, idxs[j]).Some? {
        assert forall j :: 0 <= j < |idxs[1..]| ==> idxs[1..][j] == idxs[j + 1];
      }
    }
  }

  /** A known transaction date survives the cascade. */
  lemma {:induction false} CascadeKeepsDate(rd: Readers, texts: seq<string>, idxs: seq<int>, a: Attempt)
    requires TruthyString(a.date)
    ensures Cascade(rd, texts, idxs, a).Some? ==> Cascade(rd, texts, idxs, a).value.date == a.date
    decreases |idxs|
  {
    if |idxs| > 0 && PageIndex(|texts|, idxs[0]).Some? {
      CascadeKeepsDate(rd, texts, idxs[1..], ReadText(rd, texts[PageIndex(|texts|, idxs[0]).value], a.date));
    }
  }

  /** A reading that already found a value or a number is final: no other page is consulted. */
  lemma FoundNeedsNoPages(rd: Readers, texts1: seq<string>, texts2: seq<string>, p: int, a: Attempt)
    requires Found(a)
    ensures AfterFallback(rd, texts1, p, a) == AfterFallback(rd, texts2, p, a) == Some(a)
  {
  }

  /** On the first page the previous-page fallback wraps to the last page of the document. */
  lemma PreviousOfFirstPageIsLast(n: nat)
    requires n >= 2
    ensures PageIndex(n, 0 - 1) == Some(n - 1) && PageIndex(n, 0 - 2) == Some(n - 2)
  {
  }

  /** Pages past the end raise: on the last page the forward loop fails unless that page itself finds something. */
  lemma ForwardPastEndFails(rd: Readers, texts: seq<string>, a: Attempt)
    requires |texts| > 0 && !Found(a) && !Found(ReadText(rd, texts[|texts| - 1], a.date))
    ensures AfterFallback(rd, texts, |texts| - 1, a).None?
  {
    var p := |texts| - 1;
    assert PageIndex(|texts|, p) == Some(p);
    var next := ReadText(rd, texts[p], a.date);
    assert PageIndex(|texts|, p + 1).None?;
    assert [p, p + 1, p + 2][1..] == [p + 1, p + 2];
    assert Cascade(rd, texts, [p + 1, p + 2], next).None?;
    assert Cascade(rd, texts, [p, p + 1, p + 2], a) == Cascade(rd, texts, [p + 1, p + 2], next);
  }

  // ---------------------------------------------------------------- build_special_case_value

  /** `round(a * b, 2)`: the value of a quantity at a unit price, to the cent. */
  function RoundedProduct(a: real, b: real): (r: real)
    ensures -0.005 <= r - a * b <= 0.005
  {
    Round(a * b, 2)
  }

  /** One tranche: the base detail with the value and the price of a (quantity, price) match. */
  function Tranche(rd: Readers, base: Detail, m: (string, string)): (r: Option<Detail>)
    ensures r.Some? <==> rd.toFloat(Some(m.0)).Some? && rd.toFloat(Some(m.1)).Some?
    ensures r.Some? ==> r.value.transactionDate == base.transactionDate && r.value.numberOfStock == base.numberOfStock
    ensures r.Some? ==> r.value.pricePerShare == rd.toFloat(Some(m.1)) &&
                        r.value.value == Some(RoundedProduct(rd.toFloat(Some(m.0)).value, rd.toFloat(Some(m.1)).value))
  {
    var price := rd.toFloat(Some(m.1));
    var qty := rd.toFloat(Some(m.0));
    if qty.None? || price.None? then None
    else Some(base.(value := Some(RoundedProduct(qty.value, price.value)), pricePerShare := price))
  }

  /** The loop over the matches; the first match whose numbers do not convert raises (None). */
  function Tranches(rd: Readers, base: Detail, ms: seq<(string, string)>): (r: Option<seq<Detail>>)
    decreases |ms|
  {
    if |ms| == 0 then Some([])
    else
      match Tranches(rd, base, ms[..|ms| - 1])
      case None => None
      case Some(ds) =>
        match Tranche(rd, base, ms[|ms| - 1])
        case None => None
        case Some(d) => Some(ds + [d])
  }

  /** The loop yields one tranche per match, in match order, and fails exactly when some match does not convert. */
  lemma {:induction false} TranchesFacts(rd: Readers, base: Detail, ms: seq<(string, string)>)
    ensures Tranches(rd, base, ms).Some? <==> forall i :: 0 <= i < |ms| ==> Tranche(rd, base, ms[i]).Some?
    ensures Tranches(rd, base, ms).Some? ==>
              |Tranches(rd, base, ms).value| == |ms| &&
              forall i :: 0 <= i < |ms| ==> Tranches(rd, base, ms).value[i] == Tranche(rd, base, ms[i]).value
    decreases |ms|
  {
    if |ms| > 0 {
      var init := ms[..|ms| - 1];
      TranchesFacts(rd, base, init);
      assert forall i :: 0 <= i < |init| ==> init[i] == ms[i];
    }
  }

  /**
   * `build_special_case_value`: with a truthy raw value holding at least two
   * "<qty> units at <price> per unit" matches, one tranche per match and the flag set;
   * ([], False) when a number there does not convert; otherwise the base alone.
   */
  function SpecialCaseValueSpec(rd: Readers, rawValue: Option<string>, base: Detail): (r: (seq<Detail>, bool))
  {
    if !TruthyString(rawValue) then ([base], false)
    else
      var ms := rd.unitPrices(rawValue.value);
      if |ms| < 2 then ([base], false)
      else
        match Tranches(rd, base, ms)
        case None => ([], false)
        case Some(ds) => (ds, true)
  }

  /** The split happens exactly with two or more convertible matches; it never yields exactly one record. */
  lemma SpecialCaseValueFacts(rd: Readers, rawValue: Option<string>, base: Detail)
    ensures var r := SpecialCaseValueSpec(rd, rawValue, base);
      (r.1 <==> TruthyString(rawValue) && |rd.unitPrices(rawValue.value)| >= 2 &&
                forall i :: 0 <= i < |rd.unitPrices(rawValue.value)| ==> Tranche(rd, base, rd.unitPrices(rawValue.value)[i]).Some?) &&
      (r.1 ==> |r.0| == |rd.unitPrices(rawValue.value)| >= 2 &&
               forall i :: 0 <= i < |r.0| ==> r.0[i] == Tranche(rd, base, rd.unitPrices(rawValue.value)[i]).value) &&
      (!r.1 ==> r.0 == [] || r.0 == [base]) &&
      (r == ([base], false) <==> !TruthyString(rawValue) || |rd.unitPrices(rawValue.value)| < 2)
  {
    if TruthyString(rawValue) {
      TranchesFacts(rd, base, rd.unitPrices(rawValue.value));
    }
  }

  /** The loop of `build_special_case_value`, raising (returning ([], False)) at the first match that does not convert. */
  method BuildSpecialCaseValue(rd: Readers, rawValue: Option<string>, base: Detail) returns (details: seq<Detail>, special: bool)
    ensures (details, special) == SpecialCaseValueSpec(rd, rawValue, base)
  {
    if !TruthyString(rawValue) {
      return [base], false;
    }
    var ms := rd.unitPrices(rawValue.value);
    if |ms| < 2 {
      return [base], false;
    }
    TranchesFacts(rd, base, ms);
    details := [];
    for i := 0 to |ms|
      invariant |details| == i
      invariant forall j :: 0 <= j < i ==> Tranche(rd, base, ms[j]).Some? && details[j] == Tranche(rd, base, ms[j]).value
    {
      var price := rd.toFloat(Some(ms[i].1));
      var qty := rd.toFloat(Some(ms[i].0));
      if qty.None? || price.None? {
        assert Tranche(rd, base, ms[i]).None?;
        return [], false;
      }
      details := details + [base.(value := Some(RoundedProduct(qty.value, price.value)), pricePerShare := price)];
    }
    assert details == Tranches(rd, base, ms).value;
    special := true;
  }

  // ---------------------------------------------------------------- build_special_case_multiple_dates

  /** `(date.strip(), safe_convert_float(number))` for each (number, date) match. */
  function ByDate(rd: Readers, ms: seq<(string, string)>): (r: seq<(string, Option<real>)>)
    ensures |r| == |ms| && forall i :: 0 <= i < |ms| ==> r[i] == (Strip(ms[i].1), rd.toFloat(Some(ms[i].0)))
  {
    seq(|ms|, i requires 0 <= i < |ms| => (Strip(ms[i].1), rd.toFloat(Some(ms[i].0))))
  }

  /**
   * The detail of one date found in both dicts: its converted date, the number, the price and their
   * rounded product (all four fields of the base copy are overwritten).
   */
  function DatedTranche(rd: Readers, k: string, numbers: ODict<Option<real>>, prices: ODict<Option<real>>): (r: Option<Detail>)
    ensures r.Some? <==> Get(numbers, k).GetOr(None).Some? && Get(prices, k).GetOr(None).Some?
    ensures r.Some? ==> r.value.transactionDate == rd.toDate(Some(k)) && r.value.numberOfStock == Get(numbers, k).GetOr(None) &&
                        r.value.pricePerShare == Get(prices, k).GetOr(None)
  {
    var n := Get(numbers, k).GetOr(None);
    var p := Get(prices, k).GetOr(None);
    if n.None? || p.None? then None
    else Some(Detail(rd.toDate(Some(k)), n, Some(RoundedProduct(n.value, p.value)), p))
  }

  /** The loop over the number dates: a date missing from the prices is skipped, a missing number or price raises. */
  function DatedRecords(rd: Readers, ks: seq<string>, numbers: ODict<Option<real>>, prices: ODict<Option<real>>): (r: Option<seq<Detail>>)
    decreases |ks|
  {
    if |ks| == 0 then Some([])
    else
      match DatedRecords(rd, ks[..|ks| - 1], numbers, prices)
      case None => None
      case Some(ds) =>
        var k := ks[|ks| - 1];
        if !HasKey(prices, k) then Some(ds)
        else
          match DatedTranche(rd, k, numbers, prices)
          case None => None
          case Some(d) => Some(ds + [d])
  }

  /** The keys of `ks` that `d` has, in the order of `ks`. */
  function Paired<V>(ks: seq<string>, d: ODict<V>): (r: seq<string>)
    ensures forall k :: k in r <==> k in ks && HasKey(d, k)
    decreases |ks|
  {
    if |ks| == 0 then []
    else Paired(ks[..|ks| - 1], d) + (if HasKey(d, ks[|ks| - 1]) then [ks[|ks| - 1]] else [])
  }

  /** The loop yields one detail per paired date, in key order, and fails exactly when a paired date lacks a number or a price. */
  lemma {:induction false} DatedRecordsFacts(rd: Readers, ks: seq<string>, numbers: ODict<Option<real>>,
                                            prices: ODict<Option<real>>)
    ensures var r := DatedRecords(rd, ks, numbers, prices); var ps := Paired(ks, prices);
      (r.Some? <==> forall i :: 0 <= i < |ps| ==> DatedTranche(rd, ps[i], numbers, prices).Some?) &&
      (r.Some? ==> |r.value| == |ps| && forall i :: 0 <= i < |ps| ==> r.value[i] == DatedTranche(rd, ps[i], numbers, prices).value)
    decreases |ks|
  {
    if |ks| > 0 {
      var init := ks[..|ks| - 1];
      DatedRecordsFacts(rd, init, numbers, prices);
      var ps0 := Paired(init, prices);
      assert forall i :: 0 <= i < |ps0| ==> Paired(ks, prices)[i] == ps0[i];
    }
  }

  /**
   * `build_special_case_multiple_dates`: with truthy raw texts holding at least two
   * quantity-on-date and two price-on-date matches, the paired dates' details and the flag set,
   * or ([], False) when a paired number or price does not convert; otherwise the base alone.
   */
  function MultipleDatesSpec(rd: Readers, rawNumber: Option<string>, rawValue: Option<string>, base: Detail): (r: (seq<Detail>, bool))
  {
    if !TruthyString(rawNumber) || !TruthyString(rawValue) then ([base], false)
    else
      var nm := rd.quantityDates(rawNumber.value);
      var pm := rd.priceDates(rawValue.value);
      if |nm| < 2 || |pm| < 2 then ([base], false)
      else
        var numbers := FromPairs(ByDate(rd, nm));
        match DatedRecords(rd, Keys(numbers), numbers, FromPairs(ByDate(rd, pm)))
        case None => ([], false)
        case Some(ds) => (ds, true)
  }

  /**
   * The dates come from the quantity matches in first-seen order, a later duplicate overwriting the
   * number; only dates that also have a price match are kept; the flag is set even when none pair up.
   */
  lemma MultipleDatesFacts(rd: Readers, rawNumber: Option<string>, rawValue: Option<string>, base: Detail)
    requires TruthyString(rawNumber) && TruthyString(rawValue)
    requires |rd.quantityDates(rawNumber.value)| >= 2 && |rd.priceDates(rawValue.value)| >= 2
    ensures var qd := ByDate(rd, rd.quantityDates(rawNumber.value)); var pd := ByDate(rd, rd.priceDates(rawValue.value));
      var numbers := FromPairs(qd); var prices := FromPairs(pd); var ps := Paired(Keys(numbers), prices);
      var r := MultipleDatesSpec(rd, rawNumber, rawValue, base);
      Keys(numbers) == FirstSeen(PairKeys(qd)) &&
      (forall k :: Get(numbers, k) == LastValue(qd, k) && Get(prices, k) == LastValue(pd, k)) &&
      (r.1 <==> forall i :: 0 <= i < |ps| ==> DatedTranche(rd, ps[i], numbers, prices).Some?) &&
      (r.1 ==> |r.0| == |ps| && forall i :: 0 <= i < |ps| ==> r.0[i] == DatedTranche(rd, ps[i], numbers, prices).value) &&
      (!r.1 ==> r.0 == [])
  {
    var qd := ByDate(rd, rd.quantityDates(rawNumber.value));
    var pd := ByDate(rd, rd.priceDates(rawValue.value));
    FromPairsFacts(qd);
    FromPairsFacts(pd);
    FromPairsKeys(qd);
    DatedRecordsFacts(rd, Keys(FromPairs(qd)), FromPairs(qd), FromPairs(pd));
  }

  /** The split is tried exactly when both texts are truthy and each holds at least two matches. */
  lemma MultipleDatesGuard(rd: Readers, rawNumber: Option<string>, rawValue: Option<string>, base: Detail)
    ensures MultipleDatesSpec(rd, rawNumber, rawValue, base) == ([base], false) <==>
      !TruthyString(rawNumber) || !TruthyString(rawValue) ||
      |rd.quantityDates(rawNumber.value)| < 2 || |rd.priceDates(rawValue.value)| < 2
  {
  }

  /** `{date.strip(): safe_convert_float(number) for number, date in matches}`, assigned in match order. */
  method BuildByDate(rd: Readers, ms: seq<(string, string)>) returns (d: ODict<Option<real>>)
    ensures d == FromPairs(ByDate(rd, ms))
  {
    ghost var ps := ByDate(rd, ms);
    d := [];
    for i := 0 to |ms|
      invariant d == Update([], ps[..i])
    {
      var key := Strip(ms[i].1);
      var number := rd.toFloat(Some(ms[i].0));
      UpdateSnoc(ps, i);
      d := Put(d, key, number);
    }
    assert ps[..|ms|] == ps;
  }

  /** The loop of `build_special_case_multiple_dates` over the number dates. */
  method JoinDates(rd: Readers, numbers: ODict<Option<real>>, prices: ODict<Option<real>>) returns (r: Option<seq<Detail>>)
    ensures r == DatedRecords(rd, Keys(numbers), numbers, prices)
  {
    var ks := Keys(numbers);
    var out: seq<Detail> := [];
    for i := 0 to |ks|
      invariant DatedRecords(rd, ks[..i], numbers, prices) == Some(out)
    {
      assert ks[..i + 1][..i] == ks[..i];
      var k := ks[i];
      if HasKey(prices, k) {
        var n := Get(numbers, k).GetOr(None);
        var p := Get(prices, k).GetOr(None);
        if n.None? || p.None? {
          DatedRecordsFacts(rd, ks, numbers, prices);
          PairedIndex(ks, prices, i);
          return None;
        }
        out := out + [Detail(rd.toDate(Some(k)), n, Some(RoundedProduct(n.value, p.value)), p)];
      }
    }
    assert ks[..|ks|] == ks;
    r := Some(out);
  }

  /** A key of `ks` that `d` has is among the paired keys. */
  lemma PairedIndex<V>(ks: seq<string>, d: ODict<V>, i: nat)
    requires i < |ks| && HasKey(d, ks[i])
    ensures exists j :: 0 <= j < |Paired(ks, d)| && Paired(ks, d)[j] == ks[i]
  {
    assert ks[i] in Paired(ks, d);
  }

  method BuildMultipleDates(rd: Readers, rawNumber: Option<string>, rawValue: Option<string>, base: Detail)
    returns (details: seq<Detail>, special: bool)
    ensures (details, special) == MultipleDatesSpec(rd, rawNumber, rawValue, base)
  {
    if !TruthyString(rawNumber) || !TruthyString(rawValue) {
      return [base], false;
    }
    var nm := rd.quantityDates(rawNumber.value);
    var pm := rd.priceDates(rawValue.value);
    if |nm| < 2 || |pm| < 2 {
      return [base], false;
    }
    var numbers := BuildByDate(rd, nm);
    var prices := BuildByDate(rd, pm);
    var joined := JoinDates(rd, numbers, prices);
    if joined.None? {
      return [], false;
    }
    return joined.value, true;
  }

  // ---------------------------------------------------------------- extract_transaction_details

  /** The detail after the cascade, its price from the raw value and the number. */
  function BaseOf(rd: Readers, a: Attempt): (d: Detail)
    ensures d.transactionDate == a.date && d.numberOfStock == a.numberOfStock && d.value == a.value
  {
    Detail(a.date, a.numberOfStock, a.value, rd.pricePerShare(a.rawValue, a.numberOfStock))
  }

  /**
   * `extract_transaction_details` on a section's text, the full texts of the pages and the
   * section's page: None where the caller cannot unpack the result (an empty text returns the
   * bare base dict, a page past the end raises). Otherwise the tranche split when it gives more
   * than one detail, else the dated split when it does, else the base detail with the flag of
   * the dated split.
   */
  function TransactionDetailsSpec(rd: Readers, texts: seq<string>, page: int, section: string): (r: Option<(seq<Detail>, bool)>)
  {
    if section == "" then None
    else
      match AfterFallback(rd, texts, page, ReadText(rd, section, None))
      case None => None
      case Some(a) =>
        var base := BaseOf(rd, a);
        var byPrice := SpecialCaseValueSpec(rd, a.rawValue, base);
        if |byPrice.0| > 1 then Some(byPrice)
        else
          var byDate := MultipleDatesSpec(rd, a.rawNumberOfStock, a.rawValue, base);
          if |byDate.0| > 1 then Some(byDate) else Some(([base], byDate.1))
  }

  method ExtractTransactionDetails(rd: Readers, texts: seq<string>, page: int, section: string) returns (r: Option<(seq<Detail>, bool)>)
    ensures r == TransactionDetailsSpec(rd, texts, page, section)
  {
    if section == "" {
      return None;
    }
    var a := ReadText(rd, section, None);
    if !Found(a) {
      var forward := RunCascade(rd, texts, [page, page + 1, page + 2], a);
      if forward.None? {
        return None;
      }
      a := forward.value;
    }
    if !Found(a) {
      var backward := RunCascade(rd, texts, [page - 1, page - 2], a);
      if backward.None? {
        return None;
      }
      a := backward.value;
    }
    var base := BaseOf(rd, a);
    var details, special := BuildSpecialCaseValue(rd, a.rawValue, base);
    if |details| > 1 {
      return Some((details, special));
    }
    details, special := BuildMultipleDates(rd, a.rawNumberOfStock, a.rawValue, base);
    if |details| > 1 {
      return Some((details, special));
    }
    return Some(([base], special));
  }

  /** Every section that reads yields at least one detail, and exactly one unless a split happened. */
  lemma DetailsShape(rd: Readers, texts: seq<string>, page: int, section: string)
    ensures var r := TransactionDetailsSpec(rd, texts, page, section);
      r.Some? ==> |r.value.0| >= 1 && (!r.value.1 ==> |r.value.0| == 1)
  {
    var r := TransactionDetailsSpec(rd, texts, page, section);
    if r.Some? {
      var a := AfterFallback(rd, texts, page, ReadText(rd, section, None)).value;
      SpecialCaseValueFacts(rd, a.rawValue, BaseOf(rd, a));
    }
  }

  /** When the section's own text yields a value or a number, no page is consulted and nothing can fail. */
  lemma FoundInSectionIgnoresPages(rd: Readers, texts1: seq<string>, texts2: seq<string>, page: int, section: string)
    requires section != "" && Found(ReadText(rd, section, None))
    ensures TransactionDetailsSpec(rd, texts1, page, section) == TransactionDetailsSpec(rd, texts2, page, section)
    ensures TransactionDetailsSpec(rd, texts1, page, section).Some?
  {
    FoundNeedsNoPages(rd, texts1, texts2, page, ReadText(rd, section, None));
  }

  /** The dated split that pairs no date still sets the flag: the base detail comes back flagged as special. */
  lemma FlaggedBaseWithoutPairs(rd: Readers, texts: seq<string>, page: int, section: string)
    requires section != "" && AfterFallback(rd, texts, page, ReadText(rd, section, None)).Some?
    requires var a := AfterFallback(rd, texts, page, ReadText(rd, section, None)).value;
      |SpecialCaseValueSpec(rd, a.rawValue, BaseOf(rd, a)).0| <= 1 &&
      MultipleDatesSpec(rd, a.rawNumberOfStock, a.rawValue, BaseOf(rd, a)) == ([], true)
    ensures var a := AfterFallback(rd, texts, page, ReadText(rd, section, None)).value;
      TransactionDetailsSpec(rd, texts, page, section) == Some(([BaseOf(rd, a)], true))
  {
  }

  // ---------------------------------------------------------------- extract_records

  /** What the join reads of one shareholder section. */
  datatype Section = Section(page: int, cells: Option<ShareCells>, name: Option<string>, text: string,
                             transactionType: Option<string>)

  /** The record of one detail: name and type (falsy ones as None), the detail fields, then the holdings. */
  function MakeRecord(name: Option<string>, transactionType: Option<string>, d: Detail, h: Holdings): (r: Record)
    ensures r.shareholderName == (if TruthyString(name) then name else None)
    ensures r.transactionType == (if TruthyString(transactionType) then transactionType else None)
    ensures r.transactionDate == d.transactionDate && r.numberOfStock == d.numberOfStock && r.value == d.value &&
            r.pricePerShare == d.pricePerShare
    ensures r.sharesBefore == h.sharesBefore && r.sharesBeforePercentage == h.sharesBeforePercentage &&
            r.sharesAfter == h.sharesAfter && r.sharesAfterPercentage == h.sharesAfterPercentage
  {
    Record(if TruthyString(name) then name else None, if TruthyString(transactionType) then transactionType else None,
           d.transactionDate, d.numberOfStock, d.value, d.pricePerShare,
           h.sharesBefore, h.sharesBeforePercentage, h.sharesAfter, h.sharesAfterPercentage)
  }

  /** The records of one section, one per detail in order. */
  function SectionRecords(s: Section, ds: seq<Detail>, h: Holdings): (rs: seq<Record>)
    ensures |rs| == |ds| && forall i :: 0 <= i < |ds| ==> rs[i] == MakeRecord(s.name, s.transactionType, ds[i], h)
  {
    seq(|ds|, i requires 0 <= i < |ds| => MakeRecord(s.name, s.transactionType, ds[i], h))
  }

  /** The join over the sections: the records so far and the last section's flag; a section that raises ends it. */
  function JoinSections(rd: Readers, texts: seq<string>, ss: seq<Section>): (r: Option<(seq<Record>, bool)>)
    decreases |ss|
  {
    if |ss| == 0 then Some(([], false))
    else
      match JoinSections(rd, texts, ss[..|ss| - 1])
      case None => None
      case Some(acc) =>
        var s := ss[|ss| - 1];
        match HoldingsOf(rd, s.cells)
        case Raised => None
        case Done(h) =>
          match TransactionDetailsSpec(rd, texts, s.page, s.text)
          case None => None
          case Some(dr) => Some((acc.0 + SectionRecords(s, dr.0, h), dr.1))
  }

  /** The distinct (shares before, shares after) pairs of the records. */
  function SharePairs(rs: seq<Record>): (r: set<(Option<real>, Option<real>)>)
    ensures forall i :: 0 <= i < |rs| ==> (rs[i].sharesBefore, rs[i].sharesAfter) in r
  {
    set i | 0 <= i < |rs| :: (rs[i].sharesBefore, rs[i].sharesAfter)
  }

  predicate SameShares(a: Record, b: Record)
  {
    a.sharesBefore == b.sharesBefore && a.sharesAfter == b.sharesAfter
  }

  /** The no-change filter: dropped unless flagged special, when one record or all records share one pair. */
  function KeepRecords(rs: seq<Record>, special: bool): (r: Option<seq<Record>>)
    ensures r.Some? ==> r.value == rs
  {
    if special then Some(rs)
    else if |rs| == 1 && rs[0].sharesBefore == rs[0].sharesAfter then None
    else if |rs| > 1 && |SharePairs(rs)| == 1 then None
    else Some(rs)
  }

  /** One pair means every record agrees with the first: `len(seen_share_data) == 1` tests that. */
  lemma OnePairIffSame(rs: seq<Record>)
    requires |rs| > 0
    ensures |SharePairs(rs)| == 1 <==> forall i :: 0 <= i < |rs| ==> SameShares(rs[i], rs[0])
  {
    var p0 := (rs[0].sharesBefore, rs[0].sharesAfter);
    if forall i :: 0 <= i < |rs| ==> SameShares(rs[i], rs[0]) {
      assert SharePairs(rs) == {p0};
    } else {
      var i :| 0 <= i < |rs| && !SameShares(rs[i], rs[0]);
      var pi := (rs[i].sharesBefore, rs[i].sharesAfter);
      assert {p0, pi} <= SharePairs(rs);
      assert |{p0, pi}| == 2;
      SubsetCard({p0, pi}, SharePairs(rs));
    }
  }

  lemma SubsetCard<T>(a: set<T>, b: set<T>)
    requires a <= b
    ensures |a| <= |b|
  {
    assert b == a + (b - a);
  }

  /** Records are dropped exactly when not special and either a lone record or all records show no per-holder difference. */
  lemma KeepRecordsFacts(rs: seq<Record>, special: bool)
    ensures KeepRecords(rs, special).None? <==>
      !special && ((|rs| == 1 && rs[0].sharesBefore == rs[0].sharesAfter) ||
                   (|rs| > 1 && forall i :: 0 <= i < |rs| ==> SameShares(rs[i], rs[0])))
  {
    if |rs| > 1 {
      OnePairIffSame(rs);
    }
  }

  /** `extract_records`: no section leaves the flag unbound (None); otherwise the join, then the filter. */
  function ExtractRecordsSpec(rd: Readers, texts: seq<string>, ss: seq<Section>): (r: Option<seq<Record>>)
  {
    if |ss| == 0 then None
    else
      match JoinSections(rd, texts, ss)
      case None => None
      case Some(j) => KeepRecords(j.0, j.1)
  }

  /** Every section that joins contributes at least one record. */
  lemma {:induction false} JoinSectionsNonEmpty(rd: Readers, texts: seq<string>, ss: seq<Section>)
    ensures JoinSections(rd, texts, ss).Some? ==> |JoinSections(rd, texts, ss).value.0| >= |ss|
    decreases |ss|
  {
    if |ss| > 0 && JoinSections(rd, texts, ss).Some? {
      var s := ss[|ss| - 1];
      JoinSectionsNonEmpty(rd, texts, ss[..|ss| - 1]);
      DetailsShape(rd, texts, s.page, s.text);
    }
  }

  /** A section without a share table makes the whole filing fail. */
  lemma {:induction false} MissingTableFails(rd: Readers, texts: seq<string>, ss: seq<Section>, i: nat)
    requires i < |ss| && ss[i].cells.None?
    ensures JoinSections(rd, texts, ss).None?
    decreases |ss|
  {
    if i < |ss| - 1 {
      MissingTableFails(rd, texts, ss[..|ss| - 1], i);
    }
  }

  /** The join of one section, raising when it has no share table or its details cannot be unpacked. */
  method JoinSection(rd: Readers, texts: seq<string>, s: Section) returns (r: Option<(seq<Record>, bool)>)
    ensures r.None? <==> HoldingsOf(rd, s.cells).Raised? || TransactionDetailsSpec(rd, texts, s.page, s.text).None?
    ensures r.Some? ==> r.value == (SectionRecords(s, TransactionDetailsSpec(rd, texts, s.page, s.text).value.0, HoldingsOf(rd, s.cells).value),
                                    TransactionDetailsSpec(rd, texts, s.page, s.text).value.1)
  {
    var h := HoldingsOf(rd, s.cells);
    if h.Raised? {
      return None;
    }
    var details := ExtractTransactionDetails(rd, texts, s.page, s.text);
    if details.None? {
      return None;
    }
    var records: seq<Record> := [];
    for i := 0 to |details.value.0|
      invariant records == SectionRecords(s, details.value.0[..i], h.value)
    {
      records := records + [MakeRecord(s.name, s.transactionType, details.value.0[i], h.value)];
    }
    assert details.value.0[..|details.value.0|] == details.value.0;
    return Some((records, details.value.1));
  }

  /** The set of (before, after) pairs, as the loop over `all_records` fills `seen_share_data`. */
  method SeenShares(rs: seq<Record>) returns (seen: set<(Option<real>, Option<real>)>)
    ensures seen == SharePairs(rs)
  {
    seen := {};
    for i := 0 to |rs|
      invariant seen == SharePairs(rs[..i])
    {
      assert SharePairs(rs[..i + 1]) == SharePairs(rs[..i]) + {(rs[i].sharesBefore, rs[i].sharesAfter)};
      seen := seen + {(rs[i].sharesBefore, rs[i].sharesAfter)};
    }
    assert rs[..|rs|] == rs;
  }

  method ExtractRecords(rd: Readers, texts: seq<string>, ss: seq<Section>) returns (r: Option<seq<Record>>)
    ensures r == ExtractRecordsSpec(rd, texts, ss)
  {
    if |ss| == 0 {
      return None;
    }
    var all: seq<Record> := [];
    var special := false;
    for i := 0 to |ss|
      invariant JoinSections(rd, texts, ss[..i]) == Some((all, special))
    {
      assert ss[..i + 1][..i] == ss[..i];
      var part := JoinSection(rd, texts, ss[i]);
      if part.None? {
        JoinSectionsFails(rd, texts, ss, i + 1);
        return None;
      }
      all := all + part.value.0;
      special := part.value.1;
    }
    assert ss[..|ss|] == ss;
    if !special {
      if |all| == 1 && all[0].sharesBefore == all[0].sharesAfter {
        return None;
      }
      if |all| > 1 {
        var seen := SeenShares(all);
        if |seen| == 1 {
          return None;
        }
      }
    }
    return Some(all);
  }

  /** Once a prefix of the sections raises, the whole join does. */
  lemma {:induction false} JoinSectionsFails(rd: Readers, texts: seq<string>, ss: seq<Section>, n: nat)
    requires n <= |ss| && JoinSections(rd, texts, ss[..n]).None?
    ensures JoinSections(rd, texts, ss).None?
    decreases |ss| - n
  {
    if n < |ss| {
      assert ss[..n + 1][..n] == ss[..n];
      JoinSectionsFails(rd, texts, ss, n + 1);
    } else {
      assert ss[..n] == ss;
    }
  }

  /**
   * The join as written: line 638 calls `build_transaction_type` with one of
   * its two parameters, so every section that gets that far raises a
   * TypeError. The flag of the details stays unbound (None) until a section
   * is read.
   */
  function JoinSectionsAsWritten(rd: Readers, texts: seq<string>, ss: seq<Section>): (r: Option<(seq<Record>, Option<bool>)>)
    ensures r.Some? ==> r.value.0 == []
    decreases |ss|
  {
    if |ss| == 0 then Some(([], None))
    else
      match JoinSectionsAsWritten(rd, texts, ss[..|ss| - 1])
      case None => None
      case Some(_) =>
        var s := ss[|ss| - 1];
        match HoldingsOf(rd, s.cells)
        case Raised => None
        case Done(_) =>
          match TransactionDetailsSpec(rd, texts, s.page, s.text)
          case None => None
          case Some(_) => None
  }

  /** `extract_records` as written: an unbound flag at line 650 raises too, and every error gives None. */
  function ExtractRecordsAsWritten(rd: Readers, texts: seq<string>, ss: seq<Section>): Option<seq<Record>>
  {
    match JoinSectionsAsWritten(rd, texts, ss)
    case None => None
    case Some((records, flag)) =>
      match flag
      case None => None
      case Some(special) => KeepRecords(records, special)
  }

  /** As written, the join fails on every non-empty list of sections and nothing is ever extracted. */
  lemma ExtractRecordsAsWrittenNeverYields(rd: Readers, texts: seq<string>, ss: seq<Section>)
    ensures JoinSectionsAsWritten(rd, texts, ss).Some? <==> |ss| == 0
    ensures ExtractRecordsAsWritten(rd, texts, ss).None?
  {
  }

  /** Wherever the two-argument join yields records, the join as written raises instead. */
  lemma AsWrittenLosesEveryJoin(rd: Readers, texts: seq<string>, ss: seq<Section>)
    requires |ss| > 0 && JoinSections(rd, texts, ss).Some?
    ensures |JoinSections(rd, texts, ss).value.0| > 0
    ensures JoinSectionsAsWritten(rd, texts, ss).None?
  {
    JoinSectionsNonEmpty(rd, texts, ss);
  }

  // ---------------------------------------------------------------- apply_fallback_for_multiple_shareholder

  /** The document-level fields: the fallback type, then number, value and price read from the whole text. */
  datatype Patch = Patch(transactionType: Option<string>, numberOfStock: Option<real>, value: Option<real>,
                         pricePerShare: Option<real>)

  /** What the fallback reads from the text of the whole document. */
  function DocumentPatch(rd: Readers, pdfText: string, fallbackType: Option<string>): (p: Patch)
    ensures p.transactionType == fallbackType && p.numberOfStock == rd.toFloat(rd.numberOfStock(pdfText))
    ensures p.value == rd.buildValue(rd.value(pdfText), p.numberOfStock)
    ensures p.pricePerShare == rd.pricePerShare(rd.value(pdfText), p.numberOfStock)
  {
    var rawNumber := rd.numberOfStock(pdfText);
    var number := rd.toFloat(rawNumber);
    var rawValue := rd.value(pdfText);
    Patch(fallbackType, number, rd.buildValue(rawValue, number), rd.pricePerShare(rawValue, number))
  }

  /** A record the fallback rewrites: its type, number or value is falsy. */
  predicate Incomplete(r: Record)
  {
    !TruthyString(r.transactionType) || !TruthyReal(r.numberOfStock) || !TruthyReal(r.value)
  }

  /** The record after the fallback. */
  function Patched(r: Record, p: Patch): (r': Record)
    ensures Incomplete(r) ==> r'.transactionType == p.transactionType && r'.numberOfStock == p.numberOfStock &&
                              r'.value == p.value && r'.pricePerShare == p.pricePerShare
    ensures !Incomplete(r) ==> r' == r
    ensures r'.shareholderName == r.shareholderName && r'.transactionDate == r.transactionDate
    ensures r'.sharesBefore == r.sharesBefore && r'.sharesBeforePercentage == r.sharesBeforePercentage &&
            r'.sharesAfter == r.sharesAfter && r'.sharesAfterPercentage == r.sharesAfterPercentage
  {
    if Incomplete(r)
    then r.(transactionType := p.transactionType, numberOfStock := p.numberOfStock, value := p.value, pricePerShare := p.pricePerShare)
    else r
  }

  function FallbackSpec(rs: seq<Record>, p: Patch): (r: seq<Record>)
    ensures |r| == |rs| && forall i :: 0 <= i < |rs| ==> r[i] == Patched(rs[i], p)
  {
    seq(|rs|, i requires 0 <= i < |rs| => Patched(rs[i], p))
  }

  /** The fallback updates the records in place, one at a time. */
  method ApplyFallback(records: array<Record>, p: Patch)
    modifies records
    ensures records[..] == FallbackSpec(old(records[..]), p)
  {
    for i := 0 to records.Length
      invariant forall j :: 0 <= j < i ==> records[j] == Patched(old(records[j]), p)
      invariant forall j :: i <= j < records.Length ==> records[j] == old(records[j])
    {
      var r := records[i];
      if !TruthyString(r.transactionType) || !TruthyReal(r.numberOfStock) || !TruthyReal(r.value) {
        records[i] := r.(transactionType := p.transactionType, numberOfStock := p.numberOfStock, value := p.value,
                         pricePerShare := p.pricePerShare);
      }
    }
  }

  /** A second fallback with the same document changes nothing. */
  lemma FallbackIdempotent(rs: seq<Record>, p: Patch)
    ensures FallbackSpec(FallbackSpec(rs, p), p) == FallbackSpec(rs, p)
  {
    var once := FallbackSpec(rs, p);
    forall i | 0 <= i < |rs|
      ensures Patched(once[i], p) == once[i]
    {
      if Incomplete(rs[i]) && Incomplete(once[i]) {
        assert once[i] == rs[i].(transactionType := p.transactionType, numberOfStock := p.numberOfStock, value := p.value,
                                 pricePerShare := p.pricePerShare);
      }
    }
  }

  /** Every record comes out complete exactly when each one was already complete or the document patch is complete. */
  lemma FallbackCompletes(rs: seq<Record>, p: Patch)
    ensures (forall i :: 0 <= i < |rs| ==> !Incomplete(FallbackSpec(rs, p)[i])) <==>
            (forall i :: 0 <= i < |rs| ==> !Incomplete(rs[i]) || PatchComplete(p))
  {
    forall i | 0 <= i < |rs|
      ensures !Incomplete(FallbackSpec(rs, p)[i]) <==> !Incomplete(rs[i]) || PatchComplete(p)
    {
      if Incomplete(rs[i]) {
        assert FallbackSpec(rs, p)[i] == rs[i].(transactionType := p.transactionType, numberOfStock := p.numberOfStock,
                                                value := p.value, pricePerShare := p.pricePerShare);
      }
    }
  }

  /** The document patch itself has a truthy type, number and value. */
  predicate PatchComplete(p: Patch)
  {
    TruthyString(p.transactionType) && TruthyReal(p.numberOfStock) && TruthyReal(p.value)
  }

  // ---------------------------------------------------------------- extract_all_fields

  /** `type_securities_raw.get("results", {}).get('Voting shares/units', False)`; a missing hit raises. */
  function VotingGate(hit: Option<Checkboxes.TypeHit>): (r: Outcome<bool>)
    ensures r.Raised? <==> hit.None?
    ensures r == Done(true) <==> hit.Some? && Get(hit.value.results, "Voting shares/units") == Some(true)
  {
    match hit
    case None => Raised
    case Some(h) => Done(Get(h.results, "Voting shares/units") == Some(true))
  }

  /**
   * `extract_all_fields`: None unless the voting-shares box is checked; then the records, with the
   * document-level fallback applied from the text of the default pages when there are any.
   */
  function ExtractAllFieldsSpec(rd: Readers, hit: Option<Checkboxes.TypeHit>, texts: seq<string>, ss: seq<Section>,
                                doc: PdfText.Document, fallbackType: Option<string>): (r: Option<seq<Record>>)
  {
    if VotingGate(hit) != Done(true) then None
    else
      match ExtractRecordsSpec(rd, texts, ss)
      case None => None
      case Some(rs) =>
        if |rs| == 0 then Some(rs)
        else Some(FallbackSpec(rs, DocumentPatch(rd, PdfText.ParsePdfSpec(doc, None, PdfText.DefaultStartPage), fallbackType)))
  }

  method ExtractAllFields(rd: Readers, hit: Option<Checkboxes.TypeHit>, texts: seq<string>, ss: seq<Section>,
                          doc: PdfText.Document, fallbackType: Option<string>) returns (r: Option<seq<Record>>)
    ensures r == ExtractAllFieldsSpec(rd, hit, texts, ss, doc, fallbackType)
  {
    if hit.None? || Get(hit.value.results, "Voting shares/units") != Some(true) {
      return None;
    }
    var records := ExtractRecords(rd, texts, ss);
    if records.None? || |records.value| == 0 {
      return records;
    }
    var pdfText := PdfText.ParsePdf(doc, None, PdfText.DefaultStartPage);
    var a := new Record[|records.value|](i requires 0 <= i < |records.value| => records.value[i]);
    assert a[..] == records.value;
    ApplyFallback(a, DocumentPatch(rd, pdfText, fallbackType));
    return Some(a[..]);
  }

  /** Without a checked voting-shares box nothing is extracted; with one, the result is the fallback over the records. */
  lemma GateDecides(rd: Readers, hit: Option<Checkboxes.TypeHit>, texts: seq<string>, ss: seq<Section>,
                    doc: PdfText.Document, fallbackType: Option<string>)
    ensures ExtractAllFieldsSpec(rd, hit, texts, ss, doc, fallbackType).Some? ==>
      hit.Some? && Get(hit.value.results, "Voting shares/units") == Some(true) && ExtractRecordsSpec(rd, texts, ss).Some? &&
      |ExtractAllFieldsSpec(rd, hit, texts, ss, doc, fallbackType).value| == |ExtractRecordsSpec(rd, texts, ss).value|
    ensures hit.Some? && Get(hit.value.results, "Voting shares/units") == Some(true) && ExtractRecordsSpec(rd, texts, ss).Some? ==>
      ExtractAllFieldsSpec(rd, hit, texts, ss, doc, fallbackType).Some?
  {
  }

  /** `extract_all_fields` as written: the gate, then the records as written; the fallback is never reached. */
  function ExtractAllFieldsAsWritten(rd: Readers, hit: Option<Checkboxes.TypeHit>, texts: seq<string>, ss: seq<Section>): (r: Option<seq<Record>>)
    ensures r.Some? ==> VotingGate(hit) == Done(true)
  {
    if VotingGate(hit) != Done(true) then None else ExtractRecordsAsWritten(rd, texts, ss)
  }

  /** As written, no filing yields a record: the result is None whatever the document holds. */
  lemma ExtractAllFieldsAsWrittenNone(rd: Readers, hit: Option<Checkboxes.TypeHit>, texts: seq<string>, ss: seq<Section>)
    ensures ExtractAllFieldsAsWritten(rd, hit, texts, ss).None?
  {
    ExtractRecordsAsWrittenNeverYields(rd, texts, ss);
  }
}
