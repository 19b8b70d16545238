/**
 * Number extraction and the amount rules of a filing (the value-normalisation helpers of
 * sgx_scraper/fetch_sgx_filings/utils/payload_helper.py): the number in a free-text cell,
 * whether a stated amount is a per-share rate or a total, and the rounding applied.
 * The FX lookup is an oracle `fx(currency, amount)` standing for the latest-rate lookup
 * followed by the conversion to SGD.
 */
module FilingValues {

  import opened Wrappers
  import opened Text
  import opened Numbers
  import opened Regex

  // ---------------------------------------------------------------- pattern pieces

  /** `\s+` and `\s*` */
  const Spaces: Elem := Rep(Space, 1, None)
  const OptSpaces: Elem := Rep(Space, 0, None)

  /** `[\d,]` */
  const DigitComma: CharClass := Union(Digit, Chars(","))

  /** `[\d,]+(?:\.\d+)?` as a sequence of elements. */
  const NumberBody: Pattern := [Rep(DigitComma, 1, None), Opt([Lit("."), Rep(Digit, 1, None)])]

  /** `([\d,]+(?:\.\d+)?)`, capture group 1. */
  const NumberGroup: Elem := Group(1, NumberBody)

  /** `^\d+\.\s+(?!\d)`: a leading item number such as "5. ". */
  const NumberingLead: Pattern := [Bol, Rep(Digit, 1, None), Lit("."), Spaces, NotAhead(Digit)]

  /** `\s*\n\s*\d+\.\s*$`: a trailing item number on its own line. */
  const NumberingTrail: Pattern :=
    [OptSpaces, Lit("\n"), OptSpaces, Rep(Digit, 1, None), Lit("."), OptSpaces, Eol]

  /** The upper-cased cell texts that mean "no value". */
  const NaTokens: seq<string> := ["N/A", "NA", "NIL", "NONE", "-", "NOT APPLICABLE.", "N.A."]

  const ReferenceNouns: Pattern := AnyOf([[Lit("paragraph")], [Lit("section")], [Lit("item")], [Lit("page")],
    [Lit("note")], [Lit("schedule")], [Lit("appendix")], [Lit("exhibit")]])

  /** `.*` */
  const RestOfLine: Elem := Rep(AnyButNewline, 0, None)

  /** The five "see elsewhere" clauses, each removed with the rest of its line, ignoring case. */
  const ReferencePatterns: seq<Pattern> := [
    [Lit("refer"), Spaces, Lit("to"), Spaces] + ReferenceNouns + [RestOfLine],
    [Lit("see"), Spaces] + ReferenceNouns + [RestOfLine],
    [Lit("as"), Spaces] + AnyOf([[Lit("described")], [Lit("stated")], [Lit("mentioned")]]) + [Spaces, Lit("in"), RestOfLine],
    [Lit("please"), Spaces, Lit("refer"), RestOfLine],
    [Lit("refer"), Spaces, Lit("to"), Spaces, Lit("the"), Spaces] + AnyOf([[Lit("above")], [Lit("below")], [Lit("attached")]]) + [RestOfLine]
  ]

  const CurrencyTag: Pattern := AnyOf([[Lit("USD")], [Lit("SGD")], [Lit("US$")], [Lit("S$")], [Lit("$")]])

  /** `(?:(?:USD|SGD|US\$|S\$|\$)\s*)?([\d,]+(?:\.\d+)?)(?:\s*(?:USD|SGD|US\$|S\$|\$))?` */
  const CurrencyPattern: Pattern :=
    [Opt(CurrencyTag + [OptSpaces]), NumberGroup, Opt([OptSpaces] + CurrencyTag)]

  /** `([\d,]+(?:\.\d+)?)\s*(?:shares?|units?|securities|stocks?)` */
  const SharesPattern: Pattern :=
    [NumberGroup, OptSpaces] + AnyOf([[Lit("share"), Rep(Chars("s"), 0, Some(1))], [Lit("unit"), Rep(Chars("s"), 0, Some(1))],
      [Lit("securities")], [Lit("stock"), Rep(Chars("s"), 0, Some(1))]])

  /** `\.\d{3}` at `p`. */
  predicate ThousandGroupAt(v: string, p: nat)
  {
    p + 4 <= |v| && v[p] == '.' && IsDigit(v[p + 1]) && IsDigit(v[p + 2]) && IsDigit(v[p + 3])
  }

  /** `\.\d{2}\b` at `p`. */
  predicate CentsAt(v: string, p: nat)
  {
    p + 3 <= |v| && v[p] == '.' && IsDigit(v[p + 1]) && IsDigit(v[p + 2]) && IsBoundary(v, p + 3)
  }

  /** `(?:\.\d{3})+\.\d{2}\b` at `p` (with `seen`, the groups may already be complete). */
  predicate GroupsThenCents(v: string, p: nat, seen: bool)
    decreases |v| - p
  {
    (seen && CentsAt(v, p)) || (ThousandGroupAt(v, p) && GroupsThenCents(v, p + 4, true))
  }

  /** `\d{1,3}` of length `a` at `i`. */
  predicate DigitsAt(v: string, i: nat, a: nat)
  {
    i + a <= |v| && forall j | i <= j < i + a :: IsDigit(v[j])
  }

  /** `\b\d{1,3}(?:\.\d{3})+\.\d{2}\b` matches at `i`; the pattern has no captures, so a match is any way through it. */
  predicate MalformedAt(v: string, i: nat)
  {
    i <= |v| && IsBoundary(v, i) &&
    ((DigitsAt(v, i, 1) && GroupsThenCents(v, i + 1, false)) ||
     (DigitsAt(v, i, 2) && GroupsThenCents(v, i + 2, false)) ||
     (DigitsAt(v, i, 3) && GroupsThenCents(v, i + 3, false)))
  }

  /** `re.search(r'\b\d{1,3}(?:\.\d{3})+\.\d{2}\b', v)`, a number written with dots as thousands separators. */
  predicate MalformedFound(v: string)
  {
    exists i | 0 <= i <= |v| :: MalformedAt(v, i)
  }

  /** `[a-zA-Z$]` */
  const LetterOrDollar: Pattern := [Rep(Union(Range('a', 'z'), Union(Range('A', 'Z'), Chars("$"))), 1, Some(1))]

  /** `\([^)]*\d{2}/\d{2}/\d{4}[^)]*\)`: a parenthesised date. */
  const DatesPattern: Pattern :=
    [Lit("("), Rep(Not(Chars(")")), 0, None), Rep(Digit, 2, Some(2)), Lit("/"), Rep(Digit, 2, Some(2)), Lit("/"),
     Rep(Digit, 4, Some(4)), Rep(Not(Chars(")")), 0, None), Lit(")")]

  /** `([\d,]+(?:\.\d+)?)` */
  const FallbackPattern: Pattern := [NumberGroup]

  // ---------------------------------------------------------------- safe_convert_float

  /** Every reference clause removed, one pattern after another. */
  function RemoveReferences(v: string, pats: seq<Pattern>): (r: string)
    decreases |pats|
  {
    if pats == [] then v else RemoveReferences(Sub(pats[0], v, true, ""), pats[1..])
  }

  /** `re.sub(r'\.(?=\d{3}\.)', '', v[i:])`: a dot followed by three digits and a dot is dropped. */
  function DropThousandDots(v: string, i: nat): (r: string)
    requires i <= |v|
    decreases |v| - i
  {
    if i == |v| then ""
    else if v[i] == '.' && i + 4 < |v| && IsDigit(v[i + 1]) && IsDigit(v[i + 2]) && IsDigit(v[i + 3]) && v[i + 4] == '.'
    then DropThousandDots(v, i + 1)
    else [v[i]] + DropThousandDots(v, i + 1)
  }

  /** `float(token.replace(',', ''))`; a ValueError is None. */
  function TokenValue(tok: string): (r: Option<real>)
  {
    ParseFloat(RemoveChars(tok, {','}))
  }

  /** The text of capture group 1 of a hit ("" if it did not take part). */
  function Token(v: string, h: Hit): string
  {
    GroupText(v, h, 1).GetOr("")
  }

  /** Python's running `total += x` over `xs[k..]`, stopping at the first value that failed to parse. */
  function SumValues(xs: seq<Option<real>>, k: nat): (r: Option<real>)
    decreases |xs| - k
  {
    if k >= |xs| then Some(0.0)
    else if xs[k].None? then None
    else Plus(xs[k].value, SumValues(xs, k + 1))
  }

  /** `t` added to an optional sum. */
  function Plus(t: real, o: Option<real>): Option<real>
  {
    if o.None? then None else Some(t + o.value)
  }

  /** The parsed group-1 tokens of `hits`. */
  function TokenValues(v: string, hits: seq<Hit>): (r: seq<Option<real>>)
    ensures |r| == |hits| && forall k :: 0 <= k < |hits| ==> r[k] == TokenValue(Token(v, hits[k]))
  {
    seq(|hits|, k requires 0 <= k < |hits| => TokenValue(Token(v, hits[k])))
  }

  /** The sum of the group-1 tokens of `hits`; None as soon as one does not parse. */
  function SumTokens(v: string, hits: seq<Hit>): (r: Option<real>)
  {
    SumValues(TokenValues(v, hits), 0)
  }

  /** The text after the numbering is stripped. */
  function Unnumbered(s: string): string
  {
    Sub(NumberingTrail, Sub(NumberingLead, s, false, ""), false, "")
  }

  /** The text the number searches read: numbering and reference clauses removed. */
  function Cleaned(s: string): string
  {
    RemoveReferences(Unnumbered(s), ReferencePatterns)
  }

  /** The number of a cell as `safe_convert_float` reads it, every tier included. */
  function SafeConvertFloatSpec(s: string): (r: Option<real>)
  {
    if s == "" then None
    else if Upper(Unnumbered(s)) in NaTokens then None
    else
      var v := Cleaned(s);
      match Search(CurrencyPattern, v, true)
      case Some(h) => TokenValue(Token(v, h))
      case None =>
        var shares := FindAll(SharesPattern, v, true);
        if shares != [] then SumTokens(v, shares)
        else
          var v2 := if MalformedFound(v) && !Found(LetterOrDollar, v, false) then DropThousandDots(v, 0) else v;
          var w := Sub(DatesPattern, v2, false, "");
          var fallback := FindAll(FallbackPattern, w, false);
          if fallback == [] then None else SumTokens(w, fallback)
  }

  /** The first tier alone: the number found by the currency search. */
  function FirstNumber(s: string): (r: Option<real>)
  {
    if s == "" || Upper(Unnumbered(s)) in NaTokens then None
    else
      var v := Cleaned(s);
      match Search(CurrencyPattern, v, true)
      case Some(h) => TokenValue(Token(v, h))
      case None => None
  }

  /** Removes the reference clauses one pattern at a time. */
  method StripReferences(v0: string) returns (v: string)
    ensures v == RemoveReferences(v0, ReferencePatterns)
  {
    v := v0;
    var k := 0;
    while k < |ReferencePatterns|
      invariant 0 <= k <= |ReferencePatterns|
      invariant RemoveReferences(v, ReferencePatterns[k..]) == RemoveReferences(v0, ReferencePatterns)
    {
      assert ReferencePatterns[k..][1..] == ReferencePatterns[k + 1..];
      v := Sub(ReferencePatterns[k], v, true, "");
      k := k + 1;
    }
  }

  lemma PlusAssociates(a: real, b: real, o: Option<real>)
    ensures Plus(a, Plus(b, o)) == Plus(a + b, o)
  {
  }

  /** Adds up parsed tokens, left to right, stopping at the first that did not parse. */
  method AddValues(xs: seq<Option<real>>) returns (r: Option<real>)
    ensures r == SumValues(xs, 0)
  {
    var total := 0.0;
    var k := 0;
    while k < |xs|
      invariant 0 <= k <= |xs|
      invariant SumValues(xs, 0) == Plus(total, SumValues(xs, k))
    {
      if xs[k].None? {
        return None;
      }
      PlusAssociates(total, xs[k].value, SumValues(xs, k + 1));
      total := total + xs[k].value;
      k := k + 1;
    }
    r := Some(total);
  }

  /** `safe_convert_float`: reassigns the text step by step and tries the tiers in order. */
  method SafeConvertFloat(s: string) returns (r: Option<real>)
    ensures r == SafeConvertFloatSpec(s)
  {
    if s == "" {
      return None;
    }
    var value := Sub(NumberingLead, s, false, "");
    value := Sub(NumberingTrail, value, false, "");
    if Upper(value) in NaTokens {
      return None;
    }
    value := StripReferences(value);
    var currency := Search(CurrencyPattern, value, true);
    if currency.Some? {
      return TokenValue(Token(value, currency.value));
    }
    var shares := FindAll(SharesPattern, value, true);
    if shares != [] {
      r := AddValues(TokenValues(value, shares));
      return;
    }
    if MalformedFound(value) && !Found(LetterOrDollar, value, false) {
      value := DropThousandDots(value, 0);
    }
    var withoutDates := Sub(DatesPattern, value, false, "");
    var fallback := FindAll(FallbackPattern, withoutDates, false);
    if fallback == [] {
      return None;
    }
    r := AddValues(TokenValues(withoutDates, fallback));
  }

  // ---------------------------------------------------------------- the later tiers are dead

  /** A digit or a comma anywhere lets the currency search succeed. */
  lemma CurrencyMatchesAtDigit(v: string, j: nat)
    requires j < |v| && InClass(v[j], DigitComma, true)
    ensures Search(CurrencyPattern, v, true).Some?
  {
    var rest := [Opt([Lit("."), Rep(Digit, 1, None)]), Close(1, j), Opt([OptSpaces] + CurrencyTag)];
    assert Permissive(rest);
    RunThenPermissive(DigitComma, rest, v, j, true, map[]);
    assert NumberBody + ([Close(1, j)] + [Opt([OptSpaces] + CurrencyTag)]) == [Rep(DigitComma, 1, None)] + rest;
    assert Match([NumberGroup, Opt([OptSpaces] + CurrencyTag)], v, j, true, map[]).Some?;
    MatchFoundLater(CurrencyPattern, v, 0, j, true);
  }

  /** A failed currency search leaves no digit and no comma in the text. */
  lemma NoCurrencyNoDigits(v: string)
    requires Search(CurrencyPattern, v, true).None?
    ensures ClassAbsent(v, DigitComma, true) && ClassAbsent(v, DigitComma, false)
  {
    forall j | 0 <= j < |v|
      ensures !InClass(v[j], DigitComma, true) && !InClass(v[j], DigitComma, false)
    {
      if InClass(v[j], DigitComma, true) {
        CurrencyMatchesAtDigit(v, j);
      }
    }
  }

  /** A pattern that opens with a `[\d,]+` group finds nothing in a text without digits and commas. */
  lemma NumberGroupFindsNothing(rest: Pattern, v: string, ic: bool)
    requires ClassAbsent(v, DigitComma, ic)
    ensures FindAll([NumberGroup] + rest, v, ic) == []
  {
    var es := [NumberGroup] + rest;
    forall j | 0 <= j <= |v|
      ensures Match(es, v, j, ic, map[]).None?
    {
      if Match(es, v, j, ic, map[]).Some? {
        assert NumberGroup == Group(1, [Rep(DigitComma, 1, None)] + [Opt([Lit("."), Rep(Digit, 1, None)])]);
        GroupRunHead(1, DigitComma, None, [Opt([Lit("."), Rep(Digit, 1, None)])], rest, v, j, ic);
      }
    }
    SearchNoneIfNoMatch(es, v, 0, ic);
  }

  lemma {:induction false} DropThousandDotsKeepsAbsent(v: string, i: nat, k: CharClass, ic: bool)
    requires i <= |v| && ClassAbsent(v[i..], k, ic)
    ensures ClassAbsent(DropThousandDots(v, i), k, ic)
    decreases |v| - i
  {
    if i < |v| {
      ClassAbsentSlice(v, i, i, i + 1, k, ic);
      DropThousandDotsKeepsAbsent(v, i + 1, k, ic);
      assert v[i..i + 1] == [v[i]];
      ClassAbsentConcat([v[i]], DropThousandDots(v, i + 1), k, ic);
    }
  }

  /**
   * The currency group is optional around a required number, so whenever the text holds a
   * digit or a comma the first tier answers: the share-summing and number-summing tiers can
   * never produce a value, and the result is the first tier's number or None.
   */
  lemma LaterTiersNeverAnswer(s: string)
    ensures SafeConvertFloatSpec(s) == FirstNumber(s)
  {
    if s != "" && Upper(Unnumbered(s)) !in NaTokens {
      var v := Cleaned(s);
      if Search(CurrencyPattern, v, true).None? {
        SharesTierEmpty(v);
        FallbackTierEmpty(v);
      }
    }
  }

  /** Without a currency match there is no share count to add up. */
  lemma SharesTierEmpty(v: string)
    requires Search(CurrencyPattern, v, true).None?
    ensures FindAll(SharesPattern, v, true) == []
  {
    NoCurrencyNoDigits(v);
    assert SharesPattern == [NumberGroup] + SharesPattern[1..];
    NumberGroupFindsNothing(SharesPattern[1..], v, true);
  }

  /** Without a currency match the fallback search finds no number either, dots dropped or not. */
  lemma FallbackTierEmpty(v: string)
    requires Search(CurrencyPattern, v, true).None?
    ensures var v2 := if MalformedFound(v) && !Found(LetterOrDollar, v, false) then DropThousandDots(v, 0) else v;
      FindAll(FallbackPattern, Sub(DatesPattern, v2, false, ""), false) == []
  {
    NoCurrencyNoDigits(v);
    var v2 := if MalformedFound(v) && !Found(LetterOrDollar, v, false) then DropThousandDots(v, 0) else v;
    assert v[0..] == v;
    DropThousandDotsKeepsAbsent(v, 0, DigitComma, false);
    assert ClassAbsent(v2, DigitComma, false);
    assert v2[0..] == v2;
    SubKeepsClassAbsent(DatesPattern, v2, 0, false, DigitComma, false);
    var w := Sub(DatesPattern, v2, false, "");
    assert FallbackPattern == [NumberGroup] + [];
    NumberGroupFindsNothing([], w, false);
  }

  /** An empty cell and an N/A-style cell have no number. */
  lemma NoValueCells(s: string)
    requires s == "" || Upper(Unnumbered(s)) in NaTokens
    ensures SafeConvertFloatSpec(s).None?
  {
  }

  /** A first token made only of commas fails `float` and gives None. */
  lemma CommaTokenGivesNone(s: string)
    requires s != "" && Upper(Unnumbered(s)) !in NaTokens
    requires Search(CurrencyPattern, Cleaned(s), true).Some?
    requires forall i :: 0 <= i < |Token(Cleaned(s), Search(CurrencyPattern, Cleaned(s), true).value)| ==>
      Token(Cleaned(s), Search(CurrencyPattern, Cleaned(s), true).value)[i] == ','
    ensures SafeConvertFloatSpec(s).None?
  {
    var tok := Token(Cleaned(s), Search(CurrencyPattern, Cleaned(s), true).value);
    CommasRemoveToEmpty(tok);
  }

  lemma {:induction false} CommasRemoveToEmpty(tok: string)
    requires forall i :: 0 <= i < |tok| ==> tok[i] == ','
    ensures RemoveChars(tok, {','}) == ""
    decreases |tok|
  {
    if tok != "" {
      CommasRemoveToEmpty(tok[1..]);
    }
  }

  // ---------------------------------------------------------------- build_price_per_share

  /** `(?:sg\$|s\$|usd|sgd|hkd|us\$|\$)` */
  const PriceCurrency: Pattern := AnyOf([[Lit("sg$")], [Lit("s$")], [Lit("usd")], [Lit("sgd")], [Lit("hkd")], [Lit("us$")], [Lit("$")]])

  /** `(?:sg\$|s\$|usd|sgd|hkd|\$)`, the parenthesised cue's list, without `us$`. */
  const ParenCurrency: Pattern := AnyOf([[Lit("sg$")], [Lit("s$")], [Lit("usd")], [Lit("sgd")], [Lit("hkd")], [Lit("$")]])

  /** `s?` */
  const OptS: Elem := Rep(Chars("s"), 0, Some(1))

  /** `securit(?:y|ies)` */
  const Security: Pattern := [Lit("securit"), Or([Lit("y")], [Lit("ies")])]

  /** `(?:shares?|units?|securit(?:y|ies)|stapled\s+securit(?:y|ies))` */
  const PriceUnit: Pattern := AnyOf([[Lit("share"), OptS], [Lit("unit"), OptS], Security, [Lit("stapled"), Spaces] + Security])

  /** `(?:/shares?|/units?|per\s+<unit>)` */
  const PerPriceUnit: Pattern := AnyOf([[Lit("/share"), OptS], [Lit("/unit"), OptS], [Lit("per"), Spaces] + PriceUnit])

  /** `at\s+a?\s*price\s+per\s+<unit>\s+of\s+<currency>?\s*(<number>)` */
  const AtPricePattern: Pattern :=
    [Lit("at"), Spaces, Rep(Chars("a"), 0, Some(1)), OptSpaces, Lit("price"), Spaces, Lit("per"), Spaces] + PriceUnit
      + [Spaces, Lit("of"), Spaces, Opt(PriceCurrency), OptSpaces, NumberGroup]

  /** `@\s*<currency>?\s*(<number>)\s*<per unit>` */
  const AtSignPattern: Pattern := [Lit("@"), OptSpaces, Opt(PriceCurrency), OptSpaces, NumberGroup, OptSpaces] + PerPriceUnit

  /** `\((?:being|at|@)?\s*<currency>?\s*(<number>)\s*per\s+<unit>\)` */
  const ParenPricePattern: Pattern :=
    [Lit("("), Opt(AnyOf([[Lit("being")], [Lit("at")], [Lit("@")]])), OptSpaces, Opt(ParenCurrency), OptSpaces,
     NumberGroup, OptSpaces, Lit("per"), Spaces] + PriceUnit + [Lit(")")]

  /** `or\s+<currency>?\s*(<number>)\s*<per unit>` */
  const OrPricePattern: Pattern := [Lit("or"), Spaces, Opt(PriceCurrency), OptSpaces, NumberGroup, OptSpaces] + PerPriceUnit

  /** `<currency>?\s*(<number>)\s*per\s+(?:shares?|units?|rights\s+units?|<security>|stapled\s+<security>)` */
  const DirectPricePattern: Pattern :=
    [Opt(PriceCurrency), OptSpaces, NumberGroup, OptSpaces, Lit("per"), Spaces]
      + AnyOf([[Lit("share"), OptS], [Lit("unit"), OptS], [Lit("rights"), Spaces, Lit("unit"), OptS], Security,
               [Lit("stapled"), Spaces] + Security])

  /** The per-share cues, in the order they are tried. */
  const PriceCues: seq<Pattern> := [AtPricePattern, AtSignPattern, ParenPricePattern, OrPricePattern, DirectPricePattern]

  /** `pursuant\s+to` */
  const PursuantTo: Pattern := [Lit("pursuant"), Spaces, Lit("to")]

  /** The number captured by the first cue that matches, tried in order from `k`. */
  function CueNumber(cleaned: string, cues: seq<Pattern>, k: nat): (r: Option<string>)
    ensures r.Some? ==> exists j | k <= j < |cues| :: Found(cues[j], cleaned, true)
    ensures r.None? ==> forall j :: k <= j < |cues| ==> !Found(cues[j], cleaned, true)
    decreases |cues| - k
  {
    if k >= |cues| then None
    else match Search(cues[k], cleaned, true)
      case Some(h) => Some(Token(cleaned, h))
      case None => CueNumber(cleaned, cues, k + 1)
  }

  /** The text speaks of a per-share figure without a recognised cue. */
  predicate MentionsShares(cleaned: string)
  {
    Contains(cleaned, "share") || Contains(cleaned, "per unit") || Contains(cleaned, "per share") ||
    Contains(cleaned, "per stapled security") || Found(PursuantTo, cleaned, true)
  }

  /**
   * `build_price_per_share`: the number of the first per-share cue; else, for a text that
   * speaks of shares, the cell's own number; else the cell's number divided by the quantity,
   * when both are non-zero.
   */
  function BuildPricePerShare(raw: Option<string>, qty: Option<real>): (r: Option<real>)
    ensures raw.None? || qty.None? ==> r.None?
  {
    if raw.None? || qty.None? then None
    else
      var cleaned := Strip(Lower(raw.value));
      match CueNumber(cleaned, PriceCues, 0)
      case Some(tok) => SafeConvertFloatSpec(RemoveChars(tok, {','}))
      case None =>
        if MentionsShares(cleaned) then SafeConvertFloatSpec(raw.value)
        else TotalOverQuantity(SafeConvertFloatSpec(raw.value), qty.value)
  }

  /** The cell's number as a total: divided by the quantity when both are non-zero. */
  function TotalOverQuantity(value: Option<real>, q: real): (r: Option<real>)
  {
    if TruthyReal(value) && q != 0.0 then Some(Ratio(value.value, q)) else None
  }

  /** The division gives a price exactly when both numbers are non-zero, the quotient to four places. */
  lemma TotalOverQuantityFacts(value: Option<real>, q: real)
    ensures TotalOverQuantity(value, q).Some? <==> TruthyReal(value) && q != 0.0
    ensures TotalOverQuantity(value, q).Some? ==>
      -0.00005 <= TotalOverQuantity(value, q).value - value.value / q <= 0.00005
  {
  }

  /** Without a cue or a mention of shares, the cell is read as a total. */
  lemma PriceWithoutCue(raw: string, q: real)
    requires CueNumber(Strip(Lower(raw)), PriceCues, 0).None? && !MentionsShares(Strip(Lower(raw)))
    ensures BuildPricePerShare(Some(raw), Some(q)) == TotalOverQuantity(SafeConvertFloatSpec(raw), q)
  {
  }

  /** `round(v / q, 4)` */
  function Ratio(v: real, q: real): (r: real)
    requires q != 0.0
    ensures -0.00005 <= r - v / q <= 0.00005
  {
    var r := Round(v / q, 4);
    assert Pow10(4) == 10000;
    assert -0.5 <= (r - v / q) * 10000.0 <= 0.5;
    r
  }

  /** A cue or a mention of shares makes the cell a per-share price: the quantity plays no part. */
  lemma PriceIgnoresQuantityWhenStated(raw: string, q1: real, q2: real)
    requires CueNumber(Strip(Lower(raw)), PriceCues, 0).Some? || MentionsShares(Strip(Lower(raw)))
    ensures BuildPricePerShare(Some(raw), Some(q1)) == BuildPricePerShare(Some(raw), Some(q2))
  {
  }

  /** Without a cue the cell is a total: the price is that total over the quantity, to four places. */
  lemma PriceIsTotalOverQuantity(raw: string, q: real)
    requires CueNumber(Strip(Lower(raw)), PriceCues, 0).None? && !MentionsShares(Strip(Lower(raw)))
    requires TruthyReal(SafeConvertFloatSpec(raw)) && q != 0.0
    ensures BuildPricePerShare(Some(raw), Some(q)).Some?
    ensures var p := BuildPricePerShare(Some(raw), Some(q)).value;
      var v := SafeConvertFloatSpec(raw).value;
      -0.00005 <= p - v / q <= 0.00005
  {
    PriceWithoutCue(raw, q);
    TotalOverQuantityFacts(SafeConvertFloatSpec(raw), q);
  }

  /** Without a cue, a zero quantity or a cell without a non-zero number gives no price. */
  lemma NoPriceWithoutBoth(raw: string, q: real)
    requires CueNumber(Strip(Lower(raw)), PriceCues, 0).None? && !MentionsShares(Strip(Lower(raw)))
    requires !TruthyReal(SafeConvertFloatSpec(raw)) || q == 0.0
    ensures BuildPricePerShare(Some(raw), Some(q)).None?
  {
    PriceWithoutCue(raw, q);
    TotalOverQuantityFacts(SafeConvertFloatSpec(raw), q);
  }

  // ---------------------------------------------------------------- safe_round

  /** `safe_round(value)`: None stays None, a number is rounded to four places. */
  function SafeRound(v: Option<real>): (r: Option<real>)
    ensures r.None? <==> v.None?
    ensures v.Some? ==> -0.00005 <= r.value - v.value <= 0.00005
  {
    if v.None? then None
    else
      var r := Round(v.value, 4);
      assert Pow10(4) == 10000;
      assert -0.5 <= (r - v.value) * 10000.0 <= 0.5;
      Some(r)
  }

  // ---------------------------------------------------------------- build_value

  /** `(?:s\$|usd|sgd|\$)` */
  const ValueCurrency: Pattern := AnyOf([[Lit("s$")], [Lit("usd")], [Lit("sgd")], [Lit("$")]])

  /** `(?:share|unit|security|stapled\s+security)` */
  const ValueUnit: Pattern := AnyOf([[Lit("share")], [Lit("unit")], [Lit("security")], [Lit("stapled"), Spaces, Lit("security")]])

  /** `(?:per\s+<unit>|/share|/unit|/security)` */
  const PerValueUnit: Pattern := AnyOf([[Lit("per"), Spaces] + ValueUnit, [Lit("/share")], [Lit("/unit")], [Lit("/security")]])

  /** `[^)]*` */
  const NotClose: Elem := Rep(Not(Chars(")")), 0, None)

  /** `[\d,]+(?:\.\d+)?` without a capture. */
  const Amount: Pattern := NumberBody

  /** `\((?:[^)]*(?:s\$|usd|sgd|\$|being|at))?[^)]*<amount>\s*<per unit>[^)]*\)`, case-sensitive. */
  const ParenPerShare: Pattern :=
    [Lit("("), Opt([NotClose] + AnyOf([[Lit("s$")], [Lit("usd")], [Lit("sgd")], [Lit("$")], [Lit("being")], [Lit("at")]])), NotClose]
      + Amount + [OptSpaces] + PerValueUnit + [NotClose, Lit(")")]

  /** `\s+or\s+<currency>?\s*<amount>\s*<per unit>` */
  const OrPerShare: Pattern := [Spaces, Lit("or"), Spaces, Opt(ValueCurrency), OptSpaces] + Amount + [OptSpaces] + PerValueUnit

  /** `@\s*<currency>?\s*<amount>\s*<per unit>` */
  const AtPerShare: Pattern := [Lit("@"), OptSpaces, Opt(ValueCurrency), OptSpaces] + Amount + [OptSpaces] + PerValueUnit

  /** `at\s+a?\s*price\s+per\s+<unit>\s+of\s+<currency>?\s*<amount>` */
  const AtPricePerShare: Pattern :=
    [Lit("at"), Spaces, Rep(Chars("a"), 0, Some(1)), OptSpaces, Lit("price"), Spaces, Lit("per"), Spaces] + ValueUnit
      + [Spaces, Lit("of"), Spaces, Opt(ValueCurrency), OptSpaces] + Amount

  /** The amount is stated with its per-share rate: it is a total already. */
  predicate IsClarification(clean: string)
  {
    Found(ParenPerShare, clean, false) || Found(OrPerShare, clean, true) ||
    Found(AtPerShare, clean, true) || Found(AtPricePerShare, clean, true)
  }

  /** The amount is a per-share rate to be multiplied by the quantity. */
  predicate ShouldMultiply(clean: string)
  {
    (Contains(clean, "share") || Contains(clean, "per unit") || Contains(clean, "security") || Found(PursuantTo, clean, true))
    && !IsClarification(clean)
  }

  /** `float(qty) * value` and `safe_round`; a missing operand is a TypeError, here None. */
  function Scaled(qty: Option<real>, v: Option<real>): (r: Option<real>)
    ensures r.Some? <==> qty.Some? && v.Some?
    ensures r.Some? ==> -0.00005 <= r.value - qty.value * v.value <= 0.00005
  {
    if qty.None? || v.None? then None else SafeRound(Some(qty.value * v.value))
  }

  /**
   * `build_value`: the amount of a cell in SGD. A text containing "us" anywhere is converted
   * from USD, else one containing "hk" from HKD; a per-share rate is multiplied by the quantity
   * and rounded; on the FX paths an amount that is not multiplied is returned unrounded.
   */
  function BuildValue(raw: Option<string>, qty: Option<real>, fx: (string, Option<real>) -> Option<real>): (r: Option<real>)
    ensures raw.None? ==> r.None?
  {
    if raw.None? then None
    else
      var clean := Strip(Lower(raw.value));
      RouteValue(clean, ShouldMultiply(clean), SafeConvertFloatSpec(raw.value), qty, fx)
  }

  /** The currency routing of `build_value`, once the cleaned text, the rate test and the number are known. */
  function RouteValue(clean: string, multiply: bool, number: Option<real>, qty: Option<real>,
                      fx: (string, Option<real>) -> Option<real>): (r: Option<real>)
    ensures !Contains(clean, "us") && !Contains(clean, "hk") ==>
      r == if multiply then Scaled(qty, number) else SafeRound(number)
  {
    if Contains(clean, "us") then
      var v := fx("usd", number);
      if multiply then Scaled(qty, v) else v
    else if Contains(clean, "hk") then
      var v := fx("hkd", number);
      if multiply then Scaled(qty, v) else v
    else if multiply then Scaled(qty, number)
    else SafeRound(number)
  }

  /** Without an FX cue, a per-share rate gives quantity × rate to four places, or None without a quantity. */
  lemma ValueMultipliesRate(raw: string, qty: Option<real>, fx: (string, Option<real>) -> Option<real>)
    requires !Contains(Strip(Lower(raw)), "us") && !Contains(Strip(Lower(raw)), "hk")
    requires ShouldMultiply(Strip(Lower(raw)))
    ensures qty.None? || SafeConvertFloatSpec(raw).None? ==> BuildValue(Some(raw), qty, fx).None?
    ensures qty.Some? && SafeConvertFloatSpec(raw).Some? ==>
      var r := BuildValue(Some(raw), qty, fx);
      r.Some? && -0.00005 <= r.value - qty.value * SafeConvertFloatSpec(raw).value <= 0.00005
  {
    var clean := Strip(Lower(raw));
    var n := SafeConvertFloatSpec(raw);
    assert BuildValue(Some(raw), qty, fx) == RouteValue(clean, true, n, qty, fx);
  }

  /** An amount that is not a rate is the cell's number rounded, whatever the quantity. */
  lemma ValueIgnoresQuantity(raw: string, q1: Option<real>, q2: Option<real>, fx: (string, Option<real>) -> Option<real>)
    requires !ShouldMultiply(Strip(Lower(raw)))
    ensures BuildValue(Some(raw), q1, fx) == BuildValue(Some(raw), q2, fx)
    ensures !Contains(Strip(Lower(raw)), "us") && !Contains(Strip(Lower(raw)), "hk") ==>
      BuildValue(Some(raw), q1, fx) == SafeRound(SafeConvertFloatSpec(raw))
  {
  }

  /** A stated per-share rate beside the amount always stops the multiplication. */
  lemma ClarificationStopsMultiplying(clean: string)
    requires IsClarification(clean)
    ensures !ShouldMultiply(clean)
  {
  }

  lemma ThousandHasUs(s: string)
    requires Contains(s, "thousand")
    ensures Contains(s, "us")
  {
    var i :| 0 <= i <= |s| - 8 && OccursAt(s, "thousand", i);
    assert s[i..i + 8] == "thousand";
    assert s[i + 3..i + 5] == s[i..i + 8][3..5];
    assert "thousand"[3..5] == "us";
    assert OccursAt(s, "us", i + 3);
  }

  /** The currency routing is a bare substring test: "thousand" takes the USD path. */
  lemma ThousandTakesUsdPath(raw: string, qty: Option<real>, fx: (string, Option<real>) -> Option<real>)
    requires Contains(Strip(Lower(raw)), "thousand")
    ensures BuildValue(Some(raw), qty, fx) ==
      var v := fx("usd", SafeConvertFloatSpec(raw));
      if ShouldMultiply(Strip(Lower(raw))) then Scaled(qty, v) else v
  {
    ThousandHasUs(Strip(Lower(raw)));
  }
}
