/**
 * The label tables of the filing form: the checkbox options of each subsection with the
 * pattern that finds each label, the rules for "other circumstances", the keyword table of
 * the free-text classifier, and the type-of-securities options.
 * Python dicts keep insertion order; each table is a sequence in that order.
 */
module Constants {

  import opened Wrappers
  import opened Text
  import opened Regex

  /** One checkbox option: the key reported in the results and the pattern that finds its label. */
  datatype OptionSpec = OptionSpec(key: string, pattern: Pattern)

  /** An option whose pattern is its own label, read literally. */
  function Literal(key: string): (o: OptionSpec)
    ensures o.key == key && o.pattern == [Lit(key)]
  {
    OptionSpec(key, [Lit(key)])
  }

  /** `\s+` */
  const Spaces: Elem := Rep(Space, 1, None)

  /** `\s*` */
  const OptSpaces: Elem := Rep(Space, 0, None)

  const AcquisitionOptions: seq<OptionSpec> := [
    Literal("Securities via market transaction"),
    Literal("Securities via off-market transaction"),
    Literal("Securities via physical settlement"),
    Literal("Securities pursuant to rights issue"),
    Literal("Securities via a placement"),
    OptionSpec("Securities following conversion/exercise", [Lit("Securities following conversion")]),
    Literal("Securities as part of management")
  ]

  const DisposalOptions: seq<OptionSpec> := [
    Literal("Securities via market transaction"),
    Literal("Securities via off-market transaction")
  ]

  const OtherOptions: seq<OptionSpec> := [
    Literal("Acceptance of take-over offer"),
    OptionSpec("Acceptance of employee share options/share awards", [Lit("Acceptance of employee share options")]),
    Literal("Vesting of share awards"),
    Literal("Exercise of employee share options"),
    OptionSpec("Acceptance of take-over offer for Listed Issuer", [Lit("Acceptance of take-over offer")])
  ]

  /** The label-to-type rules for a checked "other circumstances" option, keyed by lower-case label. */
  const OtherCircumstancesRules: seq<(string, string)> := [
    ("acceptance of employee share options/share awards", "award"),
    ("vesting of share awards", "award"),
    ("exercise of employee share options", "buy"),
    ("acceptance of take-over offer for the listed issuer", "sell")
  ]

  /** `dict.get` on an association list: the value of the first entry with that key. */
  function Lookup(table: seq<(string, string)>, key: string): (r: Option<string>)
    ensures r.Some? <==> exists i | 0 <= i < |table| :: table[i].0 == key
    ensures r.Some? ==> exists i | 0 <= i < |table| :: table[i] == (key, r.value)
    decreases |table|
  {
    if |table| == 0 then None
    else if table[0].0 == key then Some(table[0].1)
    else
      var r := Lookup(table[1..], key);
      assert forall i :: 1 <= i < |table| ==> table[i] == table[1..][i - 1];
      r
  }

  function RuleFor(key: string): (r: Option<string>)
  {
    Lookup(OtherCircumstancesRules, key)
  }

  /** The free-text classifier's keywords, in precedence order. */
  const TransactionKeywords: seq<(string, seq<string>)> := [
    ("award", ["award", "grant"]),
    ("buy", ["acquisition", "exercise of options", "rights allotment", "share buy-back"]),
    ("transfer", ["transfer", "trust deed", "spousal agreement"]),
    ("sell", ["disposal", "disposed of", "disposed"])
  ]

  /** `(?:Ordinary\s+)?voting\s+(?:shares|units)` */
  const VotingSharesPattern: Pattern :=
    [Opt([Lit("Ordinary"), Spaces]), Lit("voting"), Spaces, Or([Lit("shares")], [Lit("units")])]

  /** `Rights/Options/Warrants\s+over\s+(?:voting\s+)?(?:shares/)?units` */
  const RightsPattern: Pattern :=
    [Lit("Rights/Options/Warrants"), Spaces, Lit("over"), Spaces, Opt([Lit("voting"), Spaces]),
     Opt([Lit("shares/")]), Lit("units")]

  /** `(?:Convertible\s+)?[Dd]ebentures` */
  const DebenturesPattern: Pattern :=
    [Opt([Lit("Convertible"), Spaces]), Rep(Chars("Dd"), 1, Some(1)), Lit("ebentures")]

  /** `Others.*(?:specify|:)` */
  const OthersPattern: Pattern :=
    [Lit("Others"), Rep(AnyButNewline, 0, None), Or([Lit("specify")], [Lit(":")])]

  const TypeSecuritiesOptions: seq<OptionSpec> := [
    OptionSpec("Voting shares/units", VotingSharesPattern),
    OptionSpec("Rights/Options/Warrants over voting shares/units", RightsPattern),
    OptionSpec("Convertible debentures over voting shares/units", DebenturesPattern),
    OptionSpec("Others", OthersPattern)
  ]

  predicate DistinctLabels(opts: seq<OptionSpec>)
  {
    forall i, j | 0 <= i < j < |opts| :: opts[i].key != opts[j].key
  }

  /** Every option table has distinct keys, so a result dict holds one entry per option. */
  lemma TablesHaveDistinctKeys()
    ensures DistinctLabels(AcquisitionOptions) && DistinctLabels(DisposalOptions)
    ensures DistinctLabels(OtherOptions) && DistinctLabels(TypeSecuritiesOptions)
  {
  }

  /** The rules map exactly four labels, each to 'award', 'buy' or 'sell'. */
  lemma RulesShape()
    ensures |OtherCircumstancesRules| == 4
    ensures forall i, j | 0 <= i < j < 4 :: OtherCircumstancesRules[i].0 != OtherCircumstancesRules[j].0
    ensures forall i | 0 <= i < 4 :: OtherCircumstancesRules[i].1 in {"award", "buy", "sell"}
  {
  }

  /** A rule gives 'award', 'buy' or 'sell'. */
  lemma RuleRange(key: string)
    ensures RuleFor(key).Some? ==> RuleFor(key).value in {"award", "buy", "sell"}
  {
    RulesShape();
    if RuleFor(key).Some? {
      var j :| 0 <= j < |OtherCircumstancesRules| && OtherCircumstancesRules[j] == (key, RuleFor(key).value);
      assert OtherCircumstancesRules[j].1 in {"award", "buy", "sell"};
    }
  }

  /** Both take-over options are found by one pattern. */
  lemma TakeOverOptionsSharePattern()
    ensures OtherOptions[0].pattern == OtherOptions[4].pattern
    ensures OtherOptions[0].key != OtherOptions[4].key
  {
  }

  /** The two disposal options repeat the first two acquisition options, patterns included. */
  lemma DisposalRepeatsAcquisition()
    ensures DisposalOptions == AcquisitionOptions[..2]
  {
  }

  /** Neither take-over label, lower-cased and stripped, is a rule key ("for listed issuer" lacks "the"). */
  lemma TakeOverLabelsHaveNoRule()
    ensures RuleFor(Strip(Lower(OtherOptions[0].key))).None?
    ensures RuleFor(Strip(Lower(OtherOptions[4].key))).None?
  {
    StripIdentity(Lower(OtherOptions[0].key));
    StripIdentity(Lower(OtherOptions[4].key));
    var a := Strip(Lower(OtherOptions[0].key));
    var b := Strip(Lower(OtherOptions[4].key));
    assert |a| == 29 && |b| == 47;
    forall i | 0 <= i < 4
      ensures OtherCircumstancesRules[i].0 != a && OtherCircumstancesRules[i].0 != b
    {
    }
  }
}
