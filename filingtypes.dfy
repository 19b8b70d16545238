/**
 * Classification rules of a filing (sgx_scraper/fetch_sgx_filings/utils/payload_helper.py):
 * the transaction type read from the checked circumstance box or its free-text description,
 * the netting of several priced transactions into one, and the holder type read from a name.
 */
module FilingTypes {

  import opened Wrappers
  import opened Text
  import opened Numbers
  import opened Regex
  import opened Constants
  import opened Checkboxes

  // ---------------------------------------------------------------- get_circumstance_interest

  /** The first checked box: its subsection, its label (none for others-specify) and its description. */
  datatype Interest = Interest(key: string, specificKey: Option<string>, description: Option<string>)

  /** An entry counts when its box is checked; a nested entry's description is read under 'desc', which it never has. */
  predicate EntryChecked(e: Entry)
  {
    match e
    case Flag(state) => state == Some(true)
    case Nested(checked, _) => checked
  }

  /** The first checked entry of one subsection, from index `k`. */
  function SubsectionInterest(key: string, entries: seq<(string, Entry)>, k: nat): (r: Option<Interest>)
    ensures r.Some? <==> exists j :: k <= j < |entries| && EntryChecked(entries[j].1)
    ensures r.Some? ==> exists j :: (k <= j < |entries| && EntryChecked(entries[j].1) &&
      (forall i :: k <= i < j ==> !EntryChecked(entries[i].1)) && r == Some(Interest(key, Some(entries[j].0), None)))
    decreases |entries| - k
  {
    if k >= |entries| then None
    else if EntryChecked(entries[k].1) then Some(Interest(key, Some(entries[k].0), None))
    else SubsectionInterest(key, entries, k + 1)
  }

  /** The subsections in the order of the results dict: acquisition, disposal, other circumstances. */
  function Subsections(res: CircumstanceResults): seq<(string, seq<(string, Entry)>)>
  {
    [("acquisition", res.acquisition), ("disposal", res.disposal), ("other_circumstances", res.otherCircumstances)]
  }

  /** The first checked box in dict order, the others-specify box last. */
  function CircumstanceInterest(res: CircumstanceResults): (r: Option<Interest>)
  {
    var a := SubsectionInterest("acquisition", res.acquisition, 0);
    if a.Some? then a
    else
      var d := SubsectionInterest("disposal", res.disposal, 0);
      if d.Some? then d
      else
        var o := SubsectionInterest("other_circumstances", res.otherCircumstances, 0);
        if o.Some? then o
        else if res.othersSpecify.checked then Some(Interest("others_specify", None, res.othersSpecify.description))
        else None
  }

  /** Scans one subsection's entries, returning at the first checked one. */
  method ScanSubsection(key: string, entries: seq<(string, Entry)>) returns (r: Option<Interest>)
    ensures r == SubsectionInterest(key, entries, 0)
  {
    var k := 0;
    while k < |entries|
      invariant 0 <= k <= |entries|
      invariant SubsectionInterest(key, entries, 0) == SubsectionInterest(key, entries, k)
    {
      if EntryChecked(entries[k].1) {
        return Some(Interest(key, Some(entries[k].0), None));
      }
      k := k + 1;
    }
    r := None;
  }

  /** `get_circumstance_interest`: the subsections in order, returning at the first checked box. */
  method GetCircumstanceInterest(res: CircumstanceResults) returns (r: Option<Interest>)
    ensures r == CircumstanceInterest(res)
  {
    var subsections := Subsections(res);
    assert subsections[0] == ("acquisition", res.acquisition) && subsections[1] == ("disposal", res.disposal);
    assert subsections[2] == ("other_circumstances", res.otherCircumstances);
    var k := 0;
    while k < |subsections|
      invariant 0 <= k <= 3
      invariant forall i :: 0 <= i < k ==> SubsectionInterest(subsections[i].0, subsections[i].1, 0).None?
    {
      r := ScanSubsection(subsections[k].0, subsections[k].1);
      if r.Some? {
        assert k == 0 || k == 1 || k == 2;
        return;
      }
      k := k + 1;
    }
    if res.othersSpecify.checked {
      return Some(Interest("others_specify", None, res.othersSpecify.description));
    }
    r := None;
  }

  /** No checked box anywhere, and only then, gives no interest. */
  lemma NoInterestIff(res: CircumstanceResults)
    ensures CircumstanceInterest(res).None? <==>
      (forall j :: 0 <= j < |res.acquisition| ==> !EntryChecked(res.acquisition[j].1)) &&
      (forall j :: 0 <= j < |res.disposal| ==> !EntryChecked(res.disposal[j].1)) &&
      (forall j :: 0 <= j < |res.otherCircumstances| ==> !EntryChecked(res.otherCircumstances[j].1)) &&
      !res.othersSpecify.checked
  {
  }

  /** A checked acquisition box wins over every later subsection. */
  lemma AcquisitionFirst(res: CircumstanceResults, j: nat)
    requires j < |res.acquisition| && EntryChecked(res.acquisition[j].1)
    ensures CircumstanceInterest(res).Some? && CircumstanceInterest(res).value.key == "acquisition"
  {
  }

  /** A found interest names a checked box of its subsection, and nested entries carry no description. */
  lemma InterestNamesCheckedBox(res: CircumstanceResults)
    requires CircumstanceInterest(res).Some?
    ensures var i := CircumstanceInterest(res).value;
      (i.key == "others_specify" ==> res.othersSpecify.checked && i.specificKey.None? && i.description == res.othersSpecify.description) &&
      (i.key != "others_specify" ==> (i.specificKey.Some? && i.description.None? &&
        exists n :: 0 <= n < 3 && Subsections(res)[n].0 == i.key && (exists j :: (0 <= j < |Subsections(res)[n].1| &&
          Subsections(res)[n].1[j].0 == i.specificKey.value && EntryChecked(Subsections(res)[n].1[j].1)))))
  {
    var i := CircumstanceInterest(res).value;
    var subs := Subsections(res);
    if i.key != "others_specify" {
      var a := SubsectionInterest("acquisition", res.acquisition, 0);
      var d := SubsectionInterest("disposal", res.disposal, 0);
      if a.Some? {
        assert subs[0].1 == res.acquisition;
      } else if d.Some? {
        assert subs[1].1 == res.disposal;
      } else {
        assert subs[2].1 == res.otherCircumstances;
      }
    }
  }

  // ---------------------------------------------------------------- get_transaction_type_from_desc

  /** Some keyword of `kws` occurs in `text`. */
  predicate AnyKeyword(text: string, kws: seq<string>)
  {
    exists j :: 0 <= j < |kws| && Contains(text, kws[j])
  }

  /** The first key, in table order from `k`, with a keyword in `text`. */
  function FirstKeywordKey(text: string, k: nat): (r: Option<string>)
    ensures r.Some? ==> exists j :: (k <= j < |TransactionKeywords| && AnyKeyword(text, TransactionKeywords[j].1) &&
      TransactionKeywords[j].0 == r.value && forall i :: k <= i < j ==> !AnyKeyword(text, TransactionKeywords[i].1))
    ensures r.None? ==> forall j :: k <= j < |TransactionKeywords| ==> !AnyKeyword(text, TransactionKeywords[j].1)
    decreases |TransactionKeywords| - k
  {
    if k >= |TransactionKeywords| then None
    else if AnyKeyword(text, TransactionKeywords[k].1) then Some(TransactionKeywords[k].0)
    else FirstKeywordKey(text, k + 1)
  }

  /**
   * `get_transaction_type_from_desc`: the first key whose keyword occurs in the lower-cased
   * description (the keywords are lower-case already); a 'transfer' is dropped when a value
   * is known.
   */
  function TransactionTypeFromDesc(desc: Option<string>, value: Option<real>): (r: Option<string>)
    ensures !TruthyString(desc) ==> r.None?
    ensures r.Some? ==> r.value in {"award", "buy", "transfer", "sell"}
    ensures r == Some("transfer") ==> value.None?
  {
    if !TruthyString(desc) then None
    else
      var t := FirstKeywordKey(Lower(desc.value), 0);
      if t == Some("transfer") && value.Some? then None else t
  }

  /** An award keyword wins over every other: "transfer of share awards" is an award. */
  lemma AwardTakesPrecedence(desc: string, value: Option<real>)
    requires Contains(Lower(desc), "award")
    ensures TransactionTypeFromDesc(Some(desc), value) == Some("award")
  {
    assert AnyKeyword(Lower(desc), TransactionKeywords[0].1) by {
      assert TransactionKeywords[0].1[0] == "award";
    }
  }

  /** Without an award keyword, a buy keyword wins over transfer and sell: "acquisition by transfer" is a buy. */
  lemma BuyBeforeTransfer(desc: string, value: Option<real>)
    requires !AnyKeyword(Lower(desc), ["award", "grant"]) && Contains(Lower(desc), "acquisition")
    ensures TransactionTypeFromDesc(Some(desc), value) == Some("buy")
  {
    assert AnyKeyword(Lower(desc), TransactionKeywords[1].1) by {
      assert TransactionKeywords[1].1[0] == "acquisition";
    }
  }

  /** A transfer is reported only while no value is known. */
  lemma TransferNeedsNoValue(desc: string, value: Option<real>)
    requires FirstKeywordKey(Lower(desc), 0) == Some("transfer") && desc != ""
    ensures TransactionTypeFromDesc(Some(desc), value) == (if value.None? then Some("transfer") else None)
  {
  }

  // ---------------------------------------------------------------- build_transaction_type

  /** The transaction details: a list of detail records (their values), or one number. */
  datatype Details = DetailList(values: seq<Option<real>>) | Single(value: Option<real>)

  /** The type of the interest's subsection, as `build_transaction_type` maps it. */
  function TypeOfInterest(i: Interest, value: Option<real>): (r: Option<string>)
  {
    if i.key == "others_specify" then TransactionTypeFromDesc(i.description, value)
    else if i.key == "acquisition" then
      if i.specificKey == Some("Securities as part of management") then Some("others") else Some("buy")
    else if i.key == "disposal" then Some("sell")
    else if i.key == "other_circumstances" && i.specificKey.Some? then RuleFor(Strip(Lower(i.specificKey.value)))
    else None
  }

  /**
   * `build_transaction_type`: None without a checkbox result; the value is the first detail's
   * (an empty list is an IndexError, here None); no checked box is an AttributeError, here None.
   */
  function BuildTransactionType(raw: Option<CheckboxHit>, details: Details): (r: Option<string>)
    ensures raw.None? ==> r.None?
    ensures details.DetailList? && details.values == [] ==> r.None?
  {
    if raw.None? then None
    else if details.DetailList? && details.values == [] then None
    else
      var value := if details.DetailList? then details.values[0] else details.value;
      match CircumstanceInterest(raw.value.results)
      case None => None
      case Some(i) => TypeOfInterest(i, value)
  }

  /** The classifier yields only the five transaction types. */
  lemma TransactionTypeRange(raw: Option<CheckboxHit>, details: Details)
    ensures var r := BuildTransactionType(raw, details);
      r.Some? ==> r.value in {"buy", "sell", "others", "award", "transfer"}
  {
    if raw.Some? && !(details.DetailList? && details.values == []) {
      var value := if details.DetailList? then details.values[0] else details.value;
      match CircumstanceInterest(raw.value.results)
      case None =>
      case Some(i) => TypeOfInterestRange(i, value);
    }
  }

  /** Each subsection maps to one of the five transaction types. */
  lemma TypeOfInterestRange(i: Interest, value: Option<real>)
    ensures TypeOfInterest(i, value).Some? ==> TypeOfInterest(i, value).value in {"buy", "sell", "others", "award", "transfer"}
  {
    if i.key == "other_circumstances" && i.specificKey.Some? {
      RuleRange(Strip(Lower(i.specificKey.value)));
    }
  }


  /** A checked acquisition box is a buy, except "Securities as part of management"; the value plays no part. */
  lemma AcquisitionIsBuy(hit: CheckboxHit, details: Details, j: nat)
    requires !(details.DetailList? && details.values == [])
    requires j < |hit.results.acquisition| && EntryChecked(hit.results.acquisition[j].1)
    ensures BuildTransactionType(Some(hit), details) in {Some("buy"), Some("others")}
  {
  }

  /** An interest on a take-over option classifies to None: neither label is a rule key. */
  lemma TakeOverClassifiesToNone(i: Interest, value: Option<real>)
    requires i.key == "other_circumstances" && i.specificKey in {Some(OtherOptions[0].key), Some(OtherOptions[4].key)}
    ensures TypeOfInterest(i, value).None?
  {
    TakeOverLabelsHaveNoRule();
  }

  // ---------------------------------------------------------------- compute_transactions

  /** One priced transaction: amount transacted, price and type, each possibly missing. */
  datatype PriceRow = PriceRow(amount: Option<real>, price: Option<real>, kind: Option<string>)

  /** The running totals of the loop. */
  datatype Totals = Totals(buyShares: int, buyValue: real, sellShares: int, sellValue: real,
                           othersShares: int, othersValue: real, hasBuySell: bool)

  /** The netted transaction: price, value and type. */
  datatype Net = Net(price: real, transactionValue: int, transactionType: string)

  const NoTotals: Totals := Totals(0, 0.0, 0, 0.0, 0, 0.0, false)

  /** `int(x or 0)` */
  function RowAmount(r: PriceRow): int
  {
    if r.amount.None? then 0 else Trunc(r.amount.value)
  }

  /** `float(x or 0.0)` */
  function RowPrice(r: PriceRow): real
  {
    if r.price.None? then 0.0 else r.price.value
  }

  /** `str(type).lower()`; a missing type reads "none". */
  function RowKind(r: PriceRow): string
  {
    if r.kind.None? then "none" else Lower(r.kind.value)
  }

  /** `amount * price` of one row. */
  function RowValue(r: PriceRow): real
  {
    RowAmount(r) as real * RowPrice(r)
  }

  /** One row added to the totals. */
  function AddRow(t: Totals, r: PriceRow): (u: Totals)
  {
    var amount := RowAmount(r);
    var value := RowValue(r);
    var kind := RowKind(r);
    if kind == "buy" then t.(buyShares := t.buyShares + amount, buyValue := t.buyValue + value, hasBuySell := true)
    else if kind == "sell" then t.(sellShares := t.sellShares + amount, sellValue := t.sellValue + value, hasBuySell := true)
    else t.(othersShares := t.othersShares + amount, othersValue := t.othersValue + value)
  }

  /** The totals of a list of rows, rows added left to right. */
  function TotalsOf(rows: seq<PriceRow>): Totals
    decreases |rows|
  {
    if rows == [] then NoTotals else AddRow(TotalsOf(rows[..|rows| - 1]), rows[|rows| - 1])
  }

  /** The sum of two sets of totals. */
  function Combine(a: Totals, b: Totals): Totals
  {
    Totals(a.buyShares + b.buyShares, a.buyValue + b.buyValue, a.sellShares + b.sellShares, a.sellValue + b.sellValue,
           a.othersShares + b.othersShares, a.othersValue + b.othersValue, a.hasBuySell || b.hasBuySell)
  }

  /** The netted result of the totals. */
  function Summary(t: Totals): (n: Net)
    ensures n.transactionValue >= 0
    ensures t.hasBuySell ==> n.price >= -0.0005
    ensures t.hasBuySell ==> n.transactionType == (if t.buyValue > t.sellValue then "buy" else if t.buyValue < t.sellValue then "sell" else "others")
    ensures !t.hasBuySell ==> n.transactionType == "others"
  {
    if t.hasBuySell then
      var netValue := t.buyValue - t.sellValue;
      var netShares := t.buyShares - t.sellShares;
      var kind := if netValue > 0.0 then "buy" else if netValue < 0.0 then "sell" else "others";
      var price := if netShares != 0 then Abs(netValue / netShares as real) else 0.0;
      Net(Price3(price), if Trunc(netValue) < 0 then -Trunc(netValue) else Trunc(netValue), kind)
    else
      var price := if t.othersShares > 0 then t.othersValue / t.othersShares as real else 0.0;
      Net(Price3(price), if Trunc(t.othersValue) < 0 then -Trunc(t.othersValue) else Trunc(t.othersValue), "others")
  }

  /** `round(p, 3)`, within half a thousandth. */
  function Price3(p: real): (r: real)
    ensures -0.0005 <= r - p <= 0.0005
  {
    var r := Round(p, 3);
    assert Pow10(3) == 1000;
    assert -0.5 <= (r - p) * 1000.0 <= 0.5;
    r
  }

  /** `compute_transactions`: None for no rows (the empty dict), else the netted transaction. */
  function ComputeTransactionsSpec(rows: seq<PriceRow>): (r: Option<Net>)
    ensures r.None? <==> rows == []
  {
    if rows == [] then None else Some(Summary(TotalsOf(rows)))
  }

  /** Runs the six totals and the buy/sell flag over the rows, then nets them. */
  method ComputeTransactions(rows: seq<PriceRow>) returns (r: Option<Net>)
    ensures r == ComputeTransactionsSpec(rows)
  {
    if rows == [] {
      return None;
    }
    var buyShares, buyValue := 0, 0.0;
    var sellShares, sellValue := 0, 0.0;
    var othersShares, othersValue := 0, 0.0;
    var hasBuySell := false;
    var k := 0;
    while k < |rows|
      invariant 0 <= k <= |rows|
      invariant TotalsOf(rows[..k]) == Totals(buyShares, buyValue, sellShares, sellValue, othersShares, othersValue, hasBuySell)
    {
      TotalsStep(rows, k);
      var amount := RowAmount(rows[k]);
      var value := RowValue(rows[k]);
      var kind := RowKind(rows[k]);
      if kind == "buy" {
        buyShares := buyShares + amount;
        buyValue := buyValue + value;
        hasBuySell := true;
      } else if kind == "sell" {
        sellShares := sellShares + amount;
        sellValue := sellValue + value;
        hasBuySell := true;
      } else {
        othersShares := othersShares + amount;
        othersValue := othersValue + value;
      }
      k := k + 1;
    }
    assert rows[..k] == rows;
    r := Some(Summary(Totals(buyShares, buyValue, sellShares, sellValue, othersShares, othersValue, hasBuySell)));
  }

  lemma TotalsStep(rows: seq<PriceRow>, k: nat)
    requires k < |rows|
    ensures TotalsOf(rows[..k + 1]) == AddRow(TotalsOf(rows[..k]), rows[k])
  {
    assert rows[..k + 1][..k] == rows[..k];
  }

  /** The totals of two lists of rows are the sum of their totals. */
  lemma {:induction false} TotalsAppend(a: seq<PriceRow>, b: seq<PriceRow>)
    ensures TotalsOf(a + b) == Combine(TotalsOf(a), TotalsOf(b))
    decreases |b|
  {
    if b == [] {
      assert a + b == a;
    } else {
      var b0 := b[..|b| - 1];
      assert (a + b)[..|a + b| - 1] == a + b0;
      assert (a + b)[|a + b| - 1] == b[|b| - 1];
      TotalsAppend(a, b0);
      CombineAddRow(TotalsOf(a), TotalsOf(b0), b[|b| - 1]);
    }
  }

  lemma CombineAddRow(x: Totals, y: Totals, r: PriceRow)
    ensures Combine(x, AddRow(y, r)) == AddRow(Combine(x, y), r)
  {
  }

  /** The netted transaction does not depend on the order of two groups of rows. */
  lemma OrderDoesNotMatter(a: seq<PriceRow>, b: seq<PriceRow>)
    ensures ComputeTransactionsSpec(a + b) == ComputeTransactionsSpec(b + a)
  {
    TotalsAppend(a, b);
    TotalsAppend(b, a);
  }

  /** Rows typed other than buy or sell change nothing once a buy or a sell is present. */
  lemma OthersIgnoredBesideBuySell(rows: seq<PriceRow>, others: seq<PriceRow>)
    requires TotalsOf(rows).hasBuySell
    requires forall k :: 0 <= k < |others| ==> RowKind(others[k]) != "buy" && RowKind(others[k]) != "sell"
    ensures ComputeTransactionsSpec(rows + others) == ComputeTransactionsSpec(rows)
  {
    TotalsAppend(rows, others);
    OthersOnlyTotals(others);
    SummaryIgnoresOthers(TotalsOf(rows), Combine(TotalsOf(rows), TotalsOf(others)));
  }

  /** With a buy or a sell present, the others totals play no part in the result. */
  lemma SummaryIgnoresOthers(t: Totals, u: Totals)
    requires t.hasBuySell && u.hasBuySell
    requires t.buyShares == u.buyShares && t.buyValue == u.buyValue && t.sellShares == u.sellShares && t.sellValue == u.sellValue
    ensures Summary(t) == Summary(u)
  {
  }

  lemma {:induction false} OthersOnlyTotals(others: seq<PriceRow>)
    requires forall k :: 0 <= k < |others| ==> RowKind(others[k]) != "buy" && RowKind(others[k]) != "sell"
    ensures var t := TotalsOf(others);
      t.buyShares == 0 && t.buyValue == 0.0 && t.sellShares == 0 && t.sellValue == 0.0 && !t.hasBuySell
    decreases |others|
  {
    if others != [] {
      OthersOnlyTotals(others[..|others| - 1]);
    }
  }

  // ---------------------------------------------------------------- classify_holder_type

  const InstitutionTokens: set<string> := {
    "PTE", "LTD", "LIMITED", "LLP", "PLC", "INC", "CORP", "CORPORATION",
    "BHD", "SDN", "SA", "SARL", "BV", "NV", "GMBH", "AG", "SCSP",
    "TRUST", "REIT", "FUND", "CAPITAL", "HOLDINGS", "INVESTMENT",
    "MANAGEMENT", "NOMINEES", "CUSTODIAN", "BANK", "INSURANCE",
    "GOVERNMENT", "AUTHORITY", "MINISTRY", "FOUNDATION"
  }

  /** `\.?` */
  const OptDot: Elem := Rep(Chars("."), 0, Some(1))

  /** `\b(PTE\s?LTD|LTD|LIMITED|LLP|PLC|INC|CORP|S\.?A\.?|S\.?C\.?S\.?P\.?|TRUST|REIT|FUND)\b`, case-sensitive. */
  const InstitutionPattern: Pattern := [WordBoundary, Group(1, AnyOf([
    [Lit("PTE"), Rep(Space, 0, Some(1)), Lit("LTD")], [Lit("LTD")], [Lit("LIMITED")], [Lit("LLP")], [Lit("PLC")],
    [Lit("INC")], [Lit("CORP")], [Lit("S"), OptDot, Lit("A"), OptDot],
    [Lit("S"), OptDot, Lit("C"), OptDot, Lit("S"), OptDot, Lit("P"), OptDot],
    [Lit("TRUST")], [Lit("REIT")], [Lit("FUND")]])), WordBoundary]

  /** The name with '.' and ',' removed, stripped and upper-cased. */
  function Normalized(name: string): string
  {
    Upper(Strip(RemoveChars(name, {'.', ','})))
  }

  /** The normalised name with every whitespace run written as one space. */
  function CleanHolderName(name: string): string
  {
    Sub([Rep(Space, 1, None)], Normalized(name), false, " ")
  }

  /** Some whitespace-separated token of `s` is an institution token. */
  predicate HasInstitutionToken(s: string)
  {
    exists k :: 0 <= k < |SplitWs(s)| && SplitWs(s)[k] in InstitutionTokens
  }

  /** `classify_holder_type`: "insider" for an empty name; "institution" on a token or a pattern hit. */
  function ClassifyHolderType(name: Option<string>): (r: string)
    ensures r in {"insider", "institution"}
    ensures !TruthyString(name) ==> r == "insider"
    ensures TruthyString(name) && HasInstitutionToken(CleanHolderName(name.value)) ==> r == "institution"
    ensures r == "insider" ==> (!TruthyString(name) ||
      (!HasInstitutionToken(CleanHolderName(name.value)) && !Found(InstitutionPattern, CleanHolderName(name.value), false)))
  {
    if !TruthyString(name) then "insider" else ClassifyClean(CleanHolderName(name.value))
  }

  /** The token check, then the pattern check, on a cleaned name. */
  function ClassifyClean(clean: string): (r: string)
    ensures r == "institution" <==> HasInstitutionToken(clean) || Found(InstitutionPattern, clean, false)
    ensures r in {"insider", "institution"}
  {
    if HasInstitutionToken(clean) then "institution"
    else if Found(InstitutionPattern, clean, false) then "institution"
    else "insider"
  }

  lemma {:induction false} RemoveCharsLower(s: string, cs: set<char>)
    requires forall c :: c in cs ==> !IsUpperAscii(c) && !IsLowerAscii(c)
    ensures RemoveChars(Lower(s), cs) == Lower(RemoveChars(s, cs))
    decreases |s|
  {
    if s != "" {
      assert Lower(s)[1..] == Lower(s[1..]);
      RemoveCharsLower(s[1..], cs);
      assert LowerChar(s[0]) in cs <==> s[0] in cs;
      if s[0] !in cs {
        assert Lower([s[0]] + RemoveChars(s[1..], cs)) == [LowerChar(s[0])] + Lower(RemoveChars(s[1..], cs));
      }
    }
  }

  lemma {:induction false} TrimLeftLower(s: string)
    ensures TrimLeft(Lower(s)) == Lower(TrimLeft(s))
    decreases |s|
  {
    if s != "" {
      assert Lower(s)[1..] == Lower(s[1..]);
      TrimLeftLower(s[1..]);
    }
  }

  lemma {:induction false} TrimRightLower(s: string)
    ensures TrimRight(Lower(s)) == Lower(TrimRight(s))
    decreases |s|
  {
    if s != "" {
      assert Lower(s)[..|s| - 1] == Lower(s[..|s| - 1]);
      TrimRightLower(s[..|s| - 1]);
    }
  }

  lemma UpperLower(s: string)
    ensures Upper(Lower(s)) == Upper(s)
  {
  }

  /** The holder type ignores letter case: a name and its lower-cased form classify alike. */
  lemma ClassifyIgnoresCase(name: string)
    ensures ClassifyHolderType(Some(Lower(name))) == ClassifyHolderType(Some(name))
  {
    NormalizedIgnoresCase(name);
    assert CleanHolderName(Lower(name)) == CleanHolderName(name);
  }

  lemma NormalizedIgnoresCase(name: string)
    ensures Normalized(Lower(name)) == Normalized(name)
  {
    var cs := {'.', ','};
    RemoveCharsLower(name, cs);
    var t := RemoveChars(name, cs);
    TrimLeftLower(t);
    TrimRightLower(TrimLeft(t));
    UpperLower(Strip(t));
  }
}
