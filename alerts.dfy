/**
 * The alert filter: a filing record is held back for review when a required
 * field is missing or its quantities, direction and prices do not agree.
 */
module Alerts {

  import opened Wrappers
  import opened Numbers

  /** The fields of one filing record the filter reads; every number is a real. */
  datatype Filing = Filing(
    symbol: Option<string>,
    transactionDate: Option<string>,
    sharesBefore: Option<real>,
    sharesAfter: Option<real>,
    numberOfStock: Option<real>,
    value: Option<real>,
    pricePerShare: Option<real>,
    transactionType: Option<string>)

  /** The market price lookup, by symbol and transaction date. */
  type PriceLookup = (string, string) -> Option<real>

  const PriceCap: real := 200.0
  const MaxDeviation: real := 0.4

  predicate HasRequiredFields(f: Filing)
  {
    f.symbol.Some? && f.transactionDate.Some? && f.sharesBefore.Some?
    && f.sharesAfter.Some? && f.transactionType.Some?
  }

  function ShareChange(f: Filing): real
    requires HasRequiredFields(f)
  {
    f.sharesAfter.value - f.sharesBefore.value
  }

  /** Relative distance of the filed price from the market price. */
  function Deviation(price: real, market: real): real
    requires market != 0.0
  {
    Abs(price - market) / market
  }

  /** `filter_sgx_filings`, check by check in the order written: true means "not insertable". */
  function FilterFiling(getPrice: PriceLookup, f: Filing): bool
  {
    if !HasRequiredFields(f) then true
    else
      var diff := ShareChange(f);
      if TruthyReal(f.numberOfStock) && diff != f.numberOfStock.value then true
      else if TruthyString(f.transactionType) && diff > 0.0 && f.transactionType.value != "buy" then true
      else if TruthyString(f.transactionType) && diff < 0.0 && f.transactionType.value != "sell" then true
      else if TruthyReal(f.pricePerShare) && f.pricePerShare.value > PriceCap then true
      else if TruthyReal(f.pricePerShare)
              && var market := getPrice(f.symbol.value, f.transactionDate.value);
                 TruthyReal(market) && Deviation(f.pricePerShare.value, market.value) > MaxDeviation then true
      else if TruthyReal(f.value) && TruthyReal(f.numberOfStock) && TruthyReal(f.pricePerShare)
              && !IsClose(f.value.value / f.numberOfStock.value, f.pricePerShare.value) then true
      else false
  }

  /** Why a record is held back; the filter's answer is whether any reason applies. */
  datatype Reason = MissingField | QuantityMismatch | WrongDirection | PriceAboveCap | PriceOffMarket | ValueMismatch

  /** Every reason that applies to a record, judged independently of the others. */
  function Reasons(getPrice: PriceLookup, f: Filing): (r: set<Reason>)
    ensures MissingField in r <==> !HasRequiredFields(f)
  {
    if !HasRequiredFields(f) then {MissingField}
    else
      var diff := ShareChange(f);
      var kind := f.transactionType.value;
      var price := f.pricePerShare;
      var market := getPrice(f.symbol.value, f.transactionDate.value);
      (if TruthyReal(f.numberOfStock) && diff != f.numberOfStock.value then {QuantityMismatch} else {})
      + (if kind != "" && ((diff > 0.0 && kind != "buy") || (diff < 0.0 && kind != "sell")) then {WrongDirection} else {})
      + (if TruthyReal(price) && price.value > PriceCap then {PriceAboveCap} else {})
      + (if TruthyReal(price) && price.value <= PriceCap && TruthyReal(market)
            && Deviation(price.value, market.value) > MaxDeviation then {PriceOffMarket} else {})
      + (if TruthyReal(f.value) && TruthyReal(f.numberOfStock) && TruthyReal(price)
            && !IsClose(f.value.value / f.numberOfStock.value, price.value) then {ValueMismatch} else {})
  }

  /** The early returns lose nothing: a record is held back exactly when some reason applies. */
  lemma FilterFilingIffReason(getPrice: PriceLookup, f: Filing)
    ensures FilterFiling(getPrice, f) <==> Reasons(getPrice, f) != {}
  {
    if HasRequiredFields(f) && !FilterFiling(getPrice, f) {
      var r := Reasons(getPrice, f);
      assert QuantityMismatch !in r && WrongDirection !in r && PriceAboveCap !in r;
      assert PriceOffMarket !in r && ValueMismatch !in r && MissingField !in r;
    }
  }

  /** A share change against the filed direction is always held back. */
  lemma WrongDirectionFlagged(getPrice: PriceLookup, f: Filing)
    requires HasRequiredFields(f)
    requires ShareChange(f) < 0.0 && f.transactionType == Some("buy")
    ensures FilterFiling(getPrice, f)
  {
  }

  /** A record whose holdings did not change passes the direction check whatever its type. */
  lemma NoChangeNeverWrongDirection(getPrice: PriceLookup, f: Filing)
    requires HasRequiredFields(f) && ShareChange(f) == 0.0
    ensures WrongDirection !in Reasons(getPrice, f)
  {
  }

  /** Above the price cap the market price is never consulted. */
  lemma PriceAboveCapIgnoresLookup(p1: PriceLookup, p2: PriceLookup, f: Filing)
    requires TruthyReal(f.pricePerShare) && f.pricePerShare.value > PriceCap
    ensures FilterFiling(p1, f) == FilterFiling(p2, f)
  {
  }

  /** A consistent record passes: share change equals the quantity and has the right direction, no price is filed. */
  lemma ConsistentBuyPasses(getPrice: PriceLookup, f: Filing)
    requires HasRequiredFields(f) && f.transactionType == Some("buy")
    requires f.numberOfStock == Some(ShareChange(f)) && ShareChange(f) > 0.0
    requires f.pricePerShare.None?
    ensures !FilterFiling(getPrice, f)
  {
  }

  /** `get_data_alert` as a reference: the insertable records and the held-back ones, in input order. */
  function Partition(getPrice: PriceLookup, ps: seq<Filing>): (r: (seq<Filing>, seq<Filing>))
    decreases |ps|
  {
    if ps == [] then ([], [])
    else
      var (ins, outs) := Partition(getPrice, ps[..|ps| - 1]);
      var p := ps[|ps| - 1];
      if FilterFiling(getPrice, p) then (ins, outs + [p]) else (ins + [p], outs)
  }

  /**
   * The two lists split the input: together they hold every record exactly as
   * often as the input does, the first holds only passing records and the
   * second only held-back ones.
   */
  lemma {:induction false} PartitionFacts(getPrice: PriceLookup, ps: seq<Filing>)
    ensures multiset(Partition(getPrice, ps).0) + multiset(Partition(getPrice, ps).1) == multiset(ps)
    ensures forall p | p in Partition(getPrice, ps).0 :: !FilterFiling(getPrice, p)
    ensures forall p | p in Partition(getPrice, ps).1 :: FilterFiling(getPrice, p)
    decreases |ps|
  {
    if ps != [] {
      var init := ps[..|ps| - 1];
      PartitionFacts(getPrice, init);
      assert ps == init + [ps[|ps| - 1]];
    }
  }

  /** Every record of the input lands in the list its verdict names. */
  lemma {:induction false} PartitionComplete(getPrice: PriceLookup, ps: seq<Filing>, p: Filing)
    requires p in ps
    ensures FilterFiling(getPrice, p) ==> p in Partition(getPrice, ps).1
    ensures !FilterFiling(getPrice, p) ==> p in Partition(getPrice, ps).0
  {
    PartitionFacts(getPrice, ps);
    assert p in multiset(ps);
  }

  /** `get_data_alert`: one pass sorting each record into the insertable or the held-back list. */
  method GetDataAlert(getPrice: PriceLookup, ps: seq<Filing>) returns (insertable: seq<Filing>, notInsertable: seq<Filing>)
    ensures (insertable, notInsertable) == Partition(getPrice, ps)
  {
    if ps == [] {
      return [], [];
    }
    insertable, notInsertable := [], [];
    var i := 0;
    while i < |ps|
      invariant 0 <= i <= |ps|
      invariant (insertable, notInsertable) == Partition(getPrice, ps[..i])
    {
      assert ps[..i + 1][..i] == ps[..i];
      if FilterFiling(getPrice, ps[i]) {
        notInsertable := notInsertable + [ps[i]];
      } else {
        insertable := insertable + [ps[i]];
      }
      i := i + 1;
    }
    assert ps[..i] == ps;
  }
}
