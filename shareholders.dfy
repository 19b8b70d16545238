/**
 * Shareholder sections of a filing: where each shareholder's part of the document begins
 * and ends, and the shareholder's name read from a page.
 * The PDF library's text search is an oracle: `search(page, text, caseSensitive)` gives the
 * tops of the places where `text` appears on that page, in the library's order.
 */
module Shareholders {

  import opened Wrappers
  import opened Text
  import opened Regex

  // ---------------------------------------------------------------- names

  /** `[^\n]+` */
  const RestOfLine: Elem := Rep(Not(Chars("\n")), 1, None)

  /** `\s*` */
  const Blanks: Elem := Rep(Space, 0, None)

  /** `Name of Substantial Shareholder/Unitholder:\s*([^\n]+)` */
  const SubstantialNamePattern: Pattern :=
    [Lit("Name of Substantial Shareholder/Unitholder:"), Blanks, Group(1, [RestOfLine])]

  /** `Name of Director/CEO:\s*([^\n]+)` */
  const DirectorNamePattern: Pattern :=
    [Lit("Name of Director/CEO:"), Blanks, Group(1, [RestOfLine])]

  /** `(?:\d+\.\s*)?Name of Trustee-Manager(?:/Responsible Person)?:\s*([^\n]+)` */
  const TrusteeNamePattern: Pattern :=
    [Opt([Rep(Digit, 1, None), Lit("."), Blanks]), Lit("Name of Trustee-Manager"),
     Opt([Lit("/Responsible Person")]), Lit(":"), Blanks, Group(1, [RestOfLine])]

  const NamePatterns: seq<Pattern> := [SubstantialNamePattern, DirectorNamePattern, TrusteeNamePattern]

  /** `\s*\([^)]*\)\s*`: a parenthesised remark with the blanks around it. */
  const ParenthesisPattern: Pattern :=
    [Blanks, Lit("("), Rep(Not(Chars(")")), 0, None), Lit(")"), Blanks]

  /** The captured name with remarks such as ("FCAML") removed, stripped, trailing full stops dropped. */
  function CleanName(captured: string): (r: string)
    ensures r != "" ==> r[|r| - 1] != '.'
  {
    RStripChar(Strip(Sub(ParenthesisPattern, Strip(captured), false, "")), '.')
  }

  /** A candidate is kept unless it is empty, a lone colon or starts with a parenthesis. */
  predicate Acceptable(name: string)
  {
    name != "" && name != ":" && !StartsWith(name, "(")
  }

  /** The candidate name one pattern gives on a text (case-insensitive search, group 1). */
  function Candidate(p: Pattern, text: string): Option<string>
  {
    match FirstCapture(p, text, true)
    case None => None
    case Some(c) => Some(CleanName(c))
  }

  /** Pattern `p` gives an acceptable candidate on `text`. */
  predicate Accepts(p: Pattern, text: string)
  {
    Candidate(p, text).Some? && Acceptable(Candidate(p, text).value)
  }

  /** The first acceptable candidate, patterns tried from `k` on. */
  function NameFrom(patterns: seq<Pattern>, k: nat, text: string): (r: Option<string>)
    ensures r.Some? ==> Acceptable(r.value) && r.value[|r.value| - 1] != '.'
    decreases |patterns| - k
  {
    if k >= |patterns| then None
    else if Accepts(patterns[k], text) then Candidate(patterns[k], text)
    else NameFrom(patterns, k + 1, text)
  }

  /** The name the patterns find: the first pattern whose candidate is acceptable wins. */
  method GetShareholderName(patterns: seq<Pattern>, text: string) returns (name: Option<string>)
    ensures name == NameFrom(patterns, 0, text)
  {
    var k := 0;
    while k < |patterns|
      invariant 0 <= k <= |patterns|
      invariant NameFrom(patterns, k, text) == NameFrom(patterns, 0, text)
    {
      var c := Candidate(patterns[k], text);
      if c.Some? && Acceptable(c.value) {
        return c;
      }
      k := k + 1;
    }
    return None;
  }

  /** A name is found exactly when some pattern gives an acceptable candidate. */
  lemma {:induction false} NameFoundIff(patterns: seq<Pattern>, k: nat, text: string)
    ensures NameFrom(patterns, k, text).Some? <==> exists j :: k <= j < |patterns| && Accepts(patterns[j], text)
    decreases |patterns| - k
  {
    if k < |patterns| && !Accepts(patterns[k], text) {
      NameFoundIff(patterns, k + 1, text);
      if exists j :: k <= j < |patterns| && Accepts(patterns[j], text) {
        var j :| k <= j < |patterns| && Accepts(patterns[j], text);
        assert j != k;
      }
    }
  }

  /** The name found is the candidate of the first pattern that gives an acceptable one. */
  lemma {:induction false} NameIsFirstAccepted(patterns: seq<Pattern>, k: nat, text: string)
    requires NameFrom(patterns, k, text).Some?
    ensures exists j :: (k <= j < |patterns| && Accepts(patterns[j], text) &&
      NameFrom(patterns, k, text) == Candidate(patterns[j], text) &&
      forall i :: k <= i < j ==> !Accepts(patterns[i], text))
    decreases |patterns| - k
  {
    if !Accepts(patterns[k], text) {
      NameIsFirstAccepted(patterns, k + 1, text);
      var j :| k + 1 <= j < |patterns| && Accepts(patterns[j], text) &&
        NameFrom(patterns, k + 1, text) == Candidate(patterns[j], text) &&
        forall i :: k + 1 <= i < j ==> !Accepts(patterns[i], text);
      assert forall i :: k <= i < j ==> !Accepts(patterns[i], text);
    }
  }

  // ---------------------------------------------------------------- the name of a section

  /** The name `get_shareholder_name` reads from a page's full text. */
  function PageName(text: string): Option<string>
  {
    NameFrom(NamePatterns, 0, text)
  }

  /**
   * The name a page's full text gives; a page without text gives none. The reading of one
   * page is the parameter `nameOf`, which the document-level operation fixes to `PageName`.
   */
  function NameAt(nameOf: string -> Option<string>, texts: seq<Option<string>>, k: nat): Option<string>
    requires k < |texts|
  {
    if TruthyString(texts[k]) then nameOf(texts[k].value) else None
  }

  /** The first page in `order` that gives a name. */
  function FirstNamed(nameOf: string -> Option<string>, texts: seq<Option<string>>, order: seq<nat>): (r: Option<string>)
    requires forall i :: 0 <= i < |order| ==> order[i] < |texts|
    decreases |order|
  {
    if |order| == 0 then None
    else
      var n := NameAt(nameOf, texts, order[0]);
      if n.Some? then n else FirstNamed(nameOf, texts, order[1..])
  }

  /**
   * A name is found exactly when some page in the order gives one, and it is the name of
   * the first such page.
   */
  lemma {:induction false} FirstNamedIsFirst(nameOf: string -> Option<string>, texts: seq<Option<string>>, order: seq<nat>)
    requires forall i :: 0 <= i < |order| ==> order[i] < |texts|
    ensures FirstNamed(nameOf, texts, order).Some? <==> exists i :: 0 <= i < |order| && NameAt(nameOf, texts, order[i]).Some?
    ensures FirstNamed(nameOf, texts, order).Some? ==>
      exists i :: (0 <= i < |order| && NameAt(nameOf, texts, order[i]) == FirstNamed(nameOf, texts, order) &&
        forall j :: 0 <= j < i ==> NameAt(nameOf, texts, order[j]).None?)
    decreases |order|
  {
    if |order| > 0 && NameAt(nameOf, texts, order[0]).None? {
      FirstNamedIsFirst(nameOf, texts, order[1..]);
      assert forall i :: 1 <= i < |order| ==> order[i] == order[1..][i - 1];
      if FirstNamed(nameOf, texts, order).Some? {
        var i :| 0 <= i < |order[1..]| && NameAt(nameOf, texts, order[1..][i]) == FirstNamed(nameOf, texts, order) &&
          forall j :: 0 <= j < i ==> NameAt(nameOf, texts, order[1..][j]).None?;
        assert NameAt(nameOf, texts, order[i + 1]) == FirstNamed(nameOf, texts, order);
      }
    }
  }

  /** The two pages before `p`, nearest first, skipping negative indices. */
  function NearOrder(p: nat): (r: seq<nat>)
    ensures forall i :: 0 <= i < |r| ==> r[i] < p
  {
    (if p >= 1 then [p - 1] else []) + (if p >= 2 then [p - 2] else [])
  }

  /** `range(p - 1, 0, -1)`: every earlier page down to page 1. */
  function EarlierOrder(p: nat): (r: seq<nat>)
    ensures forall i :: 0 <= i < |r| ==> 1 <= r[i] < p
    ensures forall i :: 0 <= i < |r| ==> r[i] == p - 1 - i
  {
    if p <= 1 then [] else seq(p - 1, i requires 0 <= i < p - 1 => p - 1 - i)
  }

  /** The pages consulted, in order: the section's own page, the two before it, then all earlier pages but the first. */
  function VisitOrder(p: nat): (r: seq<nat>)
    ensures forall i :: 0 <= i < |r| ==> r[i] <= p
  {
    [p] + NearOrder(p) + EarlierOrder(p)
  }

  /**
   * `extract_shareholder_name` as a value. A page past the end, an empty section text, or a
   * section page without text (the name is then never assigned, an UnboundLocalError caught
   * by the handler) gives None.
   */
  function ShareholderNameWith(nameOf: string -> Option<string>, texts: seq<Option<string>>, p: nat, sectionText: Option<string>): Option<string>
  {
    if p >= |texts| || !TruthyString(sectionText) || !TruthyString(texts[p]) then None
    else FirstNamed(nameOf, texts, VisitOrder(p))
  }

  /** `extract_shareholder_name` with the patterns of the module. */
  function ShareholderNameSpec(texts: seq<Option<string>>, p: nat, sectionText: Option<string>): Option<string>
  {
    ShareholderNameWith(PageName, texts, p, sectionText)
  }

  /** The first name found on a page list, consulted in the given order. */
  method NameFromPages(nameOf: string -> Option<string>, texts: seq<Option<string>>, order: seq<nat>) returns (name: Option<string>)
    requires forall i :: 0 <= i < |order| ==> order[i] < |texts|
    ensures name == FirstNamed(nameOf, texts, order)
  {
    var i := 0;
    while i < |order|
      invariant 0 <= i <= |order|
      invariant FirstNamed(nameOf, texts, order[i..]) == FirstNamed(nameOf, texts, order)
    {
      assert order[i..][1..] == order[i + 1..];
      var k := order[i];
      if TruthyString(texts[k]) {
        name := nameOf(texts[k].value);
        if name.Some? {
          return name;
        }
      }
      i := i + 1;
    }
    return None;
  }

  /**
   * The shareholder's name for a section on page `p`: `texts[k]` is the full text of page k,
   * `sectionText` the text cropped to the section (the crop is not modelled).
   */
  method ExtractShareholderNameWith(nameOf: string -> Option<string>, texts: seq<Option<string>>, p: nat, sectionText: Option<string>) returns (name: Option<string>)
    ensures name == ShareholderNameWith(nameOf, texts, p, sectionText)
  {
    if p >= |texts| || !TruthyString(sectionText) || !TruthyString(texts[p]) {
      return None;
    }
    name := nameOf(texts[p].value);
    if name.Some? {
      return name;
    }
    name := NameFromPages(nameOf, texts, NearOrder(p));
    if name.None? {
      name := NameFromPages(nameOf, texts, EarlierOrder(p));
    }
    FirstNamedAppend(nameOf, texts, NearOrder(p), EarlierOrder(p));
    assert VisitOrder(p)[1..] == NearOrder(p) + EarlierOrder(p);
  }

  /** The name of a section, each page read with the module's name patterns. */
  method ExtractShareholderName(texts: seq<Option<string>>, p: nat, sectionText: Option<string>) returns (name: Option<string>)
    ensures name == ShareholderNameSpec(texts, p, sectionText)
  {
    name := ExtractShareholderNameWith(PageName, texts, p, sectionText);
  }

  lemma {:induction false} FirstNamedAppend(nameOf: string -> Option<string>, texts: seq<Option<string>>, a: seq<nat>, b: seq<nat>)
    requires forall i :: 0 <= i < |a| ==> a[i] < |texts|
    requires forall i :: 0 <= i < |b| ==> b[i] < |texts|
    ensures FirstNamed(nameOf, texts, a + b) == if FirstNamed(nameOf, texts, a).Some? then FirstNamed(nameOf, texts, a) else FirstNamed(nameOf, texts, b)
    decreases |a|
  {
    if |a| == 0 {
      assert a + b == b;
    } else {
      assert (a + b)[1..] == a[1..] + b;
      FirstNamedAppend(nameOf, texts, a[1..], b);
    }
  }

  /**
   * The name comes from the section's own page when that page names someone. Otherwise it
   * comes from an earlier page whose predecessors in the visit order named no one; the
   * first page is consulted only for sections on the second or third page.
   */
  lemma ShareholderNameProperties(nameOf: string -> Option<string>, texts: seq<Option<string>>, p: nat, sectionText: Option<string>)
    requires p < |texts| && TruthyString(sectionText) && TruthyString(texts[p])
    ensures NameAt(nameOf, texts, p).Some? ==> ShareholderNameWith(nameOf, texts, p, sectionText) == NameAt(nameOf, texts, p)
    ensures ShareholderNameWith(nameOf, texts, p, sectionText).Some? ==>
      exists k :: 0 <= k <= p && NameAt(nameOf, texts, k) == ShareholderNameWith(nameOf, texts, p, sectionText)
    ensures (p >= 3 && forall k :: 1 <= k <= p ==> NameAt(nameOf, texts, k).None?) ==>
      ShareholderNameWith(nameOf, texts, p, sectionText).None?
  {
    var order := VisitOrder(p);
    FirstNamedIsFirst(nameOf, texts, order);
    if ShareholderNameWith(nameOf, texts, p, sectionText).Some? {
      var i :| 0 <= i < |order| && NameAt(nameOf, texts, order[i]) == ShareholderNameWith(nameOf, texts, p, sectionText);
      assert order[i] <= p;
    }
    if p >= 3 && forall k :: 1 <= k <= p ==> NameAt(nameOf, texts, k).None? {
      forall i | 0 <= i < |order|
        ensures NameAt(nameOf, texts, order[i]).None?
      {
        assert 1 <= order[i] <= p;
      }
    }
  }

  /** A section page without full text never yields a name, whatever the earlier pages say. */
  lemma UnassignedNameGivesNone(nameOf: string -> Option<string>, texts: seq<Option<string>>, p: nat, sectionText: Option<string>)
    requires p < |texts| && !TruthyString(texts[p])
    ensures ShareholderNameWith(nameOf, texts, p, sectionText).None?
  {
  }

  // ---------------------------------------------------------------- anchors

  /** A place where a section starts: the anchor text (primary anchors only), its page and its top. */
  datatype Anchor = Anchor(text: Option<string>, page: nat, top: real)

  const SubstantialAnchor := "Name of Substantial Shareholder/Unitholder:"

  const PrimaryAnchors: seq<string> := [
    "Quantum of interests in securities held by Trustee-Manager",
    SubstantialAnchor,
    "Part II - Substantial Shareholder/Unitholder and Transaction(s) Details",
    "Name of Director/CEO:"
  ]

  /** `^Transaction ?[A-Z]$` under MULTILINE. */
  const TransactionPattern: Pattern :=
    [LineStart, Lit("Transaction"), Rep(Chars(" "), 0, Some(1)), Rep(Range('A', 'Z'), 1, Some(1)), LineEnd]

  /** The "Transaction X" lines of a page's text, where `re.finditer` finds them. */
  function TransactionHits(text: string): seq<Hit>
  {
    FindAll(TransactionPattern, text, false)
  }

  /** (page, top) order, the sort key. */
  predicate KeyLe(a: Anchor, b: Anchor)
  {
    a.page < b.page || (a.page == b.page && a.top <= b.top)
  }

  predicate SortedAnchors(s: seq<Anchor>)
  {
    forall i, j :: 0 <= i < j < |s| ==> KeyLe(s[i], s[j])
  }

  /** Insert after every anchor whose key is not greater, so that equal keys keep their order. */
  function Insert(x: Anchor, s: seq<Anchor>): (r: seq<Anchor>)
    requires SortedAnchors(s)
    ensures SortedAnchors(r)
    ensures multiset(r) == multiset(s) + multiset{x}
    ensures |r| == |s| + 1
    decreases |s|
  {
    if s == [] then [x]
    else if !KeyLe(s[0], x) then [x] + s
    else
      var t := Insert(x, s[1..]);
      assert s == [s[0]] + s[1..];
      assert forall k :: 0 <= k < |t| ==> KeyLe(s[0], t[k]) by {
        forall k | 0 <= k < |t|
          ensures KeyLe(s[0], t[k])
        {
          assert t[k] in multiset(t);
          assert t[k] == x || t[k] in multiset(s[1..]);
        }
      }
      [s[0]] + t
  }

  /** `list.sort(key=lambda a: (a.page, a.top))`: sorted, and a permutation of its input. */
  function SortAnchors(s: seq<Anchor>): (r: seq<Anchor>)
    ensures SortedAnchors(r)
    ensures multiset(r) == multiset(s)
    ensures |r| == |s|
    decreases |s|
  {
    if s == [] then []
    else
      var init := s[..|s| - 1];
      assert s == init + [s[|s| - 1]];
      Insert(s[|s| - 1], SortAnchors(init))
  }

  /** One anchor per top, all with the same text and page. */
  function AnchorsAt(text: Option<string>, page: nat, tops: seq<real>): (r: seq<Anchor>)
    ensures |r| == |tops|
    ensures forall i :: 0 <= i < |tops| ==> r[i] == Anchor(text, page, tops[i])
  {
    seq(|tops|, i requires 0 <= i < |tops| => Anchor(text, page, tops[i]))
  }

  /** The primary anchors of one page: anchor by anchor, every place it is found (ignoring case). */
  function PrimaryFrom(page: nat, search: (nat, string, bool) -> seq<real>, anchors: seq<string>, k: nat): (r: seq<Anchor>)
    decreases |anchors| - k
  {
    if k >= |anchors| then []
    else
      AnchorsAt(Some(anchors[k]), page, search(page, anchors[k], false)) + PrimaryFrom(page, search, anchors, k + 1)
  }

  /** The transaction anchors of one page: each "Transaction X" line, placed where its text is first found. */
  function TransactionsIn(page: nat, text: string, hits: seq<Hit>, search: (nat, string, bool) -> seq<real>): (r: seq<Anchor>)
    decreases |hits|
  {
    if |hits| == 0 then [] else TransactionAt(page, text, hits[0], search) + TransactionsIn(page, text, hits[1..], search)
  }

  /** The anchor of one "Transaction X" line, if its text is found on the page. */
  function TransactionAt(page: nat, text: string, h: Hit, search: (nat, string, bool) -> seq<real>): (r: seq<Anchor>)
    ensures |r| <= 1 && forall i :: 0 <= i < |r| ==> r[i].page == page
  {
    var found := if h.start <= h.end <= |text| then search(page, text[h.start..h.end], true) else [];
    if found != [] then [Anchor(None, page, found[0])] else []
  }

  /** A page of the document: its size and the text the library extracts from it. */
  datatype PdfPage = PdfPage(width: real, height: real, text: Option<string>)

  function PageTransactions(pages: seq<PdfPage>, k: nat, search: (nat, string, bool) -> seq<real>, hitsOf: string -> seq<Hit>): seq<Anchor>
    requires k < |pages|
  {
    if TruthyString(pages[k].text) then
      TransactionsIn(k, pages[k].text.value, hitsOf(pages[k].text.value), search)
    else []
  }

  /** The anchors of pages `0` .. `n - 1`, in page order, before sorting. */
  function FoundPrimary(pages: seq<PdfPage>, n: nat, search: (nat, string, bool) -> seq<real>, anchors: seq<string>): (r: seq<Anchor>)
    requires n <= |pages|
  {
    if n == 0 then [] else FoundPrimary(pages, n - 1, search, anchors) + PrimaryFrom(n - 1, search, anchors, 0)
  }

  function FoundTransactions(pages: seq<PdfPage>, n: nat, search: (nat, string, bool) -> seq<real>, hitsOf: string -> seq<Hit>): (r: seq<Anchor>)
    requires n <= |pages|
  {
    if n == 0 then [] else FoundTransactions(pages, n - 1, search, hitsOf) + PageTransactions(pages, n - 1, search, hitsOf)
  }

  /** The primary anchors found on a page are on that page. */
  lemma {:induction false} PrimaryFromOnPage(page: nat, search: (nat, string, bool) -> seq<real>, anchors: seq<string>, k: nat)
    ensures forall i :: 0 <= i < |PrimaryFrom(page, search, anchors, k)| ==> PrimaryFrom(page, search, anchors, k)[i].page == page
    decreases |anchors| - k
  {
    if k < |anchors| {
      PrimaryFromOnPage(page, search, anchors, k + 1);
    }
  }

  /** The transaction anchors found on a page are on that page. */
  lemma {:induction false} TransactionsInOnPage(page: nat, text: string, hits: seq<Hit>, search: (nat, string, bool) -> seq<real>)
    ensures forall i :: 0 <= i < |TransactionsIn(page, text, hits, search)| ==>
      TransactionsIn(page, text, hits, search)[i].page == page
    decreases |hits|
  {
    if |hits| > 0 {
      TransactionsInOnPage(page, text, hits[1..], search);
    }
  }

  /** The primary anchors of the first `n` pages lie on those pages. */
  lemma {:induction false} PrimaryOnPages(pages: seq<PdfPage>, n: nat, search: (nat, string, bool) -> seq<real>, anchors: seq<string>)
    requires n <= |pages|
    ensures forall i :: 0 <= i < |FoundPrimary(pages, n, search, anchors)| ==> FoundPrimary(pages, n, search, anchors)[i].page < n
  {
    if n > 0 {
      PrimaryOnPages(pages, n - 1, search, anchors);
      PrimaryFromOnPage(n - 1, search, anchors, 0);
    }
  }

  /** The transaction anchors of the first `n` pages lie on those pages. */
  lemma {:induction false} TransactionsOnPages(pages: seq<PdfPage>, n: nat, search: (nat, string, bool) -> seq<real>, hitsOf: string -> seq<Hit>)
    requires n <= |pages|
    ensures forall i :: 0 <= i < |FoundTransactions(pages, n, search, hitsOf)| ==>
      FoundTransactions(pages, n, search, hitsOf)[i].page < n
  {
    if n > 0 {
      TransactionsOnPages(pages, n - 1, search, hitsOf);
      PageTransactionsOnPage(pages, n - 1, search, hitsOf);
      BelowAfterAppend(FoundTransactions(pages, n - 1, search, hitsOf), PageTransactions(pages, n - 1, search, hitsOf), n);
    }
  }

  lemma PageTransactionsOnPage(pages: seq<PdfPage>, k: nat, search: (nat, string, bool) -> seq<real>, hitsOf: string -> seq<Hit>)
    requires k < |pages|
    ensures forall i :: 0 <= i < |PageTransactions(pages, k, search, hitsOf)| ==> PageTransactions(pages, k, search, hitsOf)[i].page == k
  {
    if TruthyString(pages[k].text) {
      var text := pages[k].text.value;
      TransactionsInOnPage(k, text, hitsOf(text), search);
    }
  }

  /** Anchors before page `n`, followed by anchors on page `n - 1`, are all before page `n`. */
  lemma BelowAfterAppend(a: seq<Anchor>, b: seq<Anchor>, n: nat)
    requires n > 0
    requires forall i :: 0 <= i < |a| ==> a[i].page < n
    requires forall i :: 0 <= i < |b| ==> b[i].page == n - 1
    ensures forall i :: 0 <= i < |a + b| ==> (a + b)[i].page < n
  {
  }



  /**
   * The anchors that divide the document: the primary ones when there are several and one
   * of them names a substantial shareholder, else the transaction anchors when there are
   * several, else the primary ones.
   */
  function SelectAnchors(primary: seq<Anchor>, transactions: seq<Anchor>): (r: seq<Anchor>)
    ensures r == primary || r == transactions
    ensures r == transactions && r != primary ==> |transactions| > 1
  {
    if |primary| > 1 && exists i :: 0 <= i < |primary| && primary[i].text == Some(SubstantialAnchor) then primary
    else if |transactions| > 1 then transactions
    else primary
  }

  // ---------------------------------------------------------------- sections

  /** A section's crop box: (0, top, page width, bottom). */
  datatype Box = Box(x0: real, top: real, x1: real, bottom: real)

  datatype Section = Section(page: nat, bbox: Box)

  /** Where section `i` ends: at the next anchor if that is on the same page, else at the foot of its page. */
  function Bottom(anchors: seq<Anchor>, heights: seq<real>, i: nat): real
    requires i < |anchors| && anchors[i].page < |heights|
  {
    if i + 1 < |anchors| && anchors[i + 1].page == anchors[i].page then anchors[i + 1].top
    else heights[anchors[i].page]
  }

  predicate OnPages(anchors: seq<Anchor>, heights: seq<real>)
  {
    forall i :: 0 <= i < |anchors| ==> anchors[i].page < |heights|
  }

  /** One section per anchor, in anchor order. */
  function SectionsOf(anchors: seq<Anchor>, heights: seq<real>, width: real): (r: seq<Section>)
    requires OnPages(anchors, heights)
    ensures |r| == |anchors|
    ensures forall i :: 0 <= i < |r| ==>
      r[i] == Section(anchors[i].page, Box(0.0, anchors[i].top, width, Bottom(anchors, heights, i)))
  {
    seq(|anchors|, i requires 0 <= i < |anchors| =>
      Section(anchors[i].page, Box(0.0, anchors[i].top, width, Bottom(anchors, heights, i))))
  }

  /** The sections built from the chosen anchors. */
  method BuildSections(anchors: seq<Anchor>, heights: seq<real>, width: real) returns (r: seq<Section>)
    requires OnPages(anchors, heights)
    ensures r == SectionsOf(anchors, heights, width)
  {
    r := [];
    var i := 0;
    while i < |anchors|
      invariant 0 <= i <= |anchors|
      invariant r == SectionsOf(anchors, heights, width)[..i]
    {
      var bottom := heights[anchors[i].page];
      if i + 1 < |anchors| && anchors[i + 1].page == anchors[i].page {
        bottom := anchors[i + 1].top;
      }
      r := r + [Section(anchors[i].page, Box(0.0, anchors[i].top, width, bottom))];
      i := i + 1;
    }
  }

  /**
   * On sorted anchors the sections of a page tile it in order: each starts where its
   * anchor is, ends where the next one on its page starts, and no two overlap.
   */
  lemma SectionsTile(anchors: seq<Anchor>, heights: seq<real>, width: real)
    requires OnPages(anchors, heights) && SortedAnchors(anchors)
    ensures forall i :: 0 <= i < |anchors| - 1 && anchors[i + 1].page == anchors[i].page ==>
      SectionsOf(anchors, heights, width)[i].bbox.bottom == SectionsOf(anchors, heights, width)[i + 1].bbox.top
    ensures forall i, j :: 0 <= i < j < |anchors| && anchors[i].page == anchors[j].page ==>
      SectionsOf(anchors, heights, width)[i].bbox.top <= SectionsOf(anchors, heights, width)[i].bbox.bottom <=
      SectionsOf(anchors, heights, width)[j].bbox.top
  {
    var r := SectionsOf(anchors, heights, width);
    forall i, j | 0 <= i < j < |anchors| && anchors[i].page == anchors[j].page
      ensures r[i].bbox.top <= r[i].bbox.bottom <= r[j].bbox.top
    {
      StepOnSamePage(anchors, heights, i, j);
    }
  }

  /** Between two sorted anchors on one page, the one after the first is on that page too, not above it. */
  lemma StepOnSamePage(anchors: seq<Anchor>, heights: seq<real>, i: nat, j: nat)
    requires OnPages(anchors, heights) && SortedAnchors(anchors)
    requires i < j < |anchors| && anchors[i].page == anchors[j].page
    ensures anchors[i].top <= Bottom(anchors, heights, i) <= anchors[j].top
  {
    assert KeyLe(anchors[i], anchors[i + 1]);
    assert KeyLe(anchors[i + 1], anchors[j]) || i + 1 == j;
  }

  /** `find_shareholder_sections` as a value. */
  function SectionsSpec(pages: seq<PdfPage>, search: (nat, string, bool) -> seq<real>): seq<Section>
  {
    var primary := SortAnchors(FoundPrimary(pages, |pages|, search, PrimaryAnchors));
    var transactions := SortAnchors(FoundTransactions(pages, |pages|, search, TransactionHits));
    var chosen := SelectAnchors(primary, transactions);
    if chosen == [] then []
    else
      PrimaryOnPages(pages, |pages|, search, PrimaryAnchors);
      TransactionsOnPages(pages, |pages|, search, TransactionHits);
      SortedOnPages(FoundPrimary(pages, |pages|, search, PrimaryAnchors), primary, |pages|);
      SortedOnPages(FoundTransactions(pages, |pages|, search, TransactionHits), transactions, |pages|);
      SectionsOf(chosen, Heights(pages), pages[0].width)
  }

  function Heights(pages: seq<PdfPage>): (r: seq<real>)
    ensures |r| == |pages| && forall k :: 0 <= k < |pages| ==> r[k] == pages[k].height
  {
    seq(|pages|, k requires 0 <= k < |pages| => pages[k].height)
  }

  /** Sorting keeps each anchor, so it keeps them on their pages. */
  lemma SortedOnPages(found: seq<Anchor>, sorted: seq<Anchor>, n: nat)
    requires multiset(sorted) == multiset(found)
    requires forall i :: 0 <= i < |found| ==> found[i].page < n
    ensures forall i :: 0 <= i < |sorted| ==> sorted[i].page < n
  {
    forall i | 0 <= i < |sorted|
      ensures sorted[i].page < n
    {
      assert sorted[i] in multiset(sorted);
      assert sorted[i] in found;
      var j :| 0 <= j < |found| && found[j] == sorted[i];
    }
  }

  /** One anchor per place a text was found. */
  method AnchorsFound(text: Option<string>, page: nat, tops: seq<real>) returns (here: seq<Anchor>)
    ensures here == AnchorsAt(text, page, tops)
  {
    here := [];
    var i := 0;
    while i < |tops|
      invariant 0 <= i <= |tops|
      invariant here == AnchorsAt(text, page, tops[..i])
    {
      here := here + [Anchor(text, page, tops[i])];
      i := i + 1;
    }
    assert tops[..i] == tops;
  }

  /** The primary anchors of one page. */
  method PrimaryOnPage(page: nat, search: (nat, string, bool) -> seq<real>, anchors: seq<string>) returns (r: seq<Anchor>)
    ensures r == PrimaryFrom(page, search, anchors, 0)
  {
    r := [];
    var k := 0;
    while k < |anchors|
      invariant 0 <= k <= |anchors|
      invariant r + PrimaryFrom(page, search, anchors, k) == PrimaryFrom(page, search, anchors, 0)
    {
      var here := AnchorsFound(Some(anchors[k]), page, search(page, anchors[k], false));
      r := r + here;
      k := k + 1;
    }
  }

  /** The transaction anchors of one page. */
  method TransactionsOnPage(pages: seq<PdfPage>, k: nat, search: (nat, string, bool) -> seq<real>, hitsOf: string -> seq<Hit>) returns (r: seq<Anchor>)
    requires k < |pages|
    ensures r == PageTransactions(pages, k, search, hitsOf)
  {
    r := [];
    if !TruthyString(pages[k].text) {
      return;
    }
    var text := pages[k].text.value;
    var hits := hitsOf(text);
    var i := 0;
    while i < |hits|
      invariant 0 <= i <= |hits|
      invariant r + TransactionsIn(k, text, hits[i..], search) == TransactionsIn(k, text, hits, search)
    {
      assert hits[i..][1..] == hits[i + 1..];
      ghost var before := r;
      var h := hits[i];
      var found := if h.start <= h.end <= |text| then search(k, text[h.start..h.end], true) else [];
      if found != [] {
        r := r + [Anchor(None, k, found[0])];
      }
      assert r == before + TransactionAt(k, text, h, search);
      AnchorsAssociate(before, TransactionAt(k, text, h, search), TransactionsIn(k, text, hits[i + 1..], search));
      i := i + 1;
    }
  }

  lemma AnchorsAssociate(a: seq<Anchor>, b: seq<Anchor>, c: seq<Anchor>)
    ensures a + (b + c) == (a + b) + c
  {
  }

  lemma FoundPrimaryStep(pages: seq<PdfPage>, k: nat, search: (nat, string, bool) -> seq<real>, anchors: seq<string>)
    requires k < |pages|
    ensures FoundPrimary(pages, k + 1, search, anchors) == FoundPrimary(pages, k, search, anchors) + PrimaryFrom(k, search, anchors, 0)
  {
  }

  /** The primary anchors of every page, in page order. */
  method CollectPrimary(pages: seq<PdfPage>, search: (nat, string, bool) -> seq<real>, anchors: seq<string>) returns (primary: seq<Anchor>)
    ensures primary == FoundPrimary(pages, |pages|, search, anchors)
  {
    primary := [];
    var k := 0;
    while k < |pages|
      invariant 0 <= k <= |pages|
      invariant primary == FoundPrimary(pages, k, search, anchors)
    {
      var p := PrimaryOnPage(k, search, anchors);
      FoundPrimaryStep(pages, k, search, anchors);
      primary := primary + p;
      k := k + 1;
    }
  }

  lemma FoundTransactionsStep(pages: seq<PdfPage>, k: nat, search: (nat, string, bool) -> seq<real>, hitsOf: string -> seq<Hit>)
    requires k < |pages|
    ensures FoundTransactions(pages, k + 1, search, hitsOf) ==
      FoundTransactions(pages, k, search, hitsOf) + PageTransactions(pages, k, search, hitsOf)
  {
  }

  /** The transaction anchors of every page, in page order. */
  method CollectTransactions(pages: seq<PdfPage>, search: (nat, string, bool) -> seq<real>, hitsOf: string -> seq<Hit>) returns (transactions: seq<Anchor>)
    ensures transactions == FoundTransactions(pages, |pages|, search, hitsOf)
  {
    transactions := [];
    var k := 0;
    while k < |pages|
      invariant 0 <= k <= |pages|
      invariant transactions == FoundTransactions(pages, k, search, hitsOf)
    {
      var t := TransactionsOnPage(pages, k, search, hitsOf);
      FoundTransactionsStep(pages, k, search, hitsOf);
      transactions := transactions + t;
      k := k + 1;
    }
  }

  /** The sections of the document, one per chosen anchor. */
  method FindShareholderSections(pages: seq<PdfPage>, search: (nat, string, bool) -> seq<real>) returns (r: seq<Section>)
    ensures r == SectionsSpec(pages, search)
  {
    var primary := CollectPrimary(pages, search, PrimaryAnchors);
    var transactions := CollectTransactions(pages, search, TransactionHits);
    var sortedPrimary := SortAnchors(primary);
    var sortedTransactions := SortAnchors(transactions);
    var chosen := SelectAnchors(sortedPrimary, sortedTransactions);
    if chosen == [] {
      return [];
    }
    PrimaryOnPages(pages, |pages|, search, PrimaryAnchors);
    TransactionsOnPages(pages, |pages|, search, TransactionHits);
    SortedOnPages(primary, sortedPrimary, |pages|);
    SortedOnPages(transactions, sortedTransactions, |pages|);
    r := BuildSections(chosen, Heights(pages), pages[0].width);
  }

  /**
   * The sections of a document: none exactly when no anchor was chosen, otherwise one per
   * chosen anchor in (page, top) order, tiling each page.
   */
  lemma SectionsProperties(pages: seq<PdfPage>, search: (nat, string, bool) -> seq<real>)
    ensures var chosen := SelectAnchors(SortAnchors(FoundPrimary(pages, |pages|, search, PrimaryAnchors)),
                                        SortAnchors(FoundTransactions(pages, |pages|, search, TransactionHits)));
      |SectionsSpec(pages, search)| == |chosen| &&
      SortedAnchors(chosen) &&
      forall i :: 0 <= i < |chosen| ==>
        SectionsSpec(pages, search)[i].page == chosen[i].page &&
        SectionsSpec(pages, search)[i].bbox.top == chosen[i].top
  {
  }
}
