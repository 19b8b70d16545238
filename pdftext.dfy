/**
 * Page text reconstruction (`parse_pdf`): the non-blank lines of each page are grouped by the
 * rounded top of their box, the groups are read top to bottom, and the pages are concatenated.
 */
module PdfText {

  import opened Wrappers
  import opened Text
  import opened Numbers

  /** A text line as the PDF library reports it: the top of its box and its spans' texts. */
  datatype Line = Line(top: real, spans: seq<string>)

  /** A block of `page.get_text("dict")`: text blocks carry lines, image blocks do not. */
  datatype Block = TextBlock(lines: seq<Line>) | ImageBlock

  /** A document: per page its blocks, or None for a page whose reading raises. */
  type Document = seq<Option<seq<Block>>>

  /** The first page read when the caller names none. */
  const DefaultStartPage: int := 2

  /** Strings concatenated in order, as `line_text += span["text"]` does. */
  function Concat(ss: seq<string>): (r: string)
    decreases |ss|
  {
    if |ss| == 0 then "" else Concat(ss[..|ss| - 1]) + ss[|ss| - 1]
  }

  /** The text of a line: its spans concatenated without separator. */
  method ReadLine(l: Line) returns (text: string)
    ensures text == Concat(l.spans)
  {
    text := "";
    for i := 0 to |l.spans|
      invariant text == Concat(l.spans[..i])
    {
      assert l.spans[..i + 1][..i] == l.spans[..i];
      text := text + l.spans[i];
    }
    assert l.spans[..|l.spans|] == l.spans;
  }

  /** The lines of the text blocks, in block order. */
  function AllLines(bs: seq<Block>): (r: seq<Line>)
    decreases |bs|
  {
    if |bs| == 0 then []
    else
      var last := bs[|bs| - 1];
      AllLines(bs[..|bs| - 1]) + (if last.TextBlock? then last.lines else [])
  }

  /** The line text that grouping keeps: stripped, and "" for a blank line. */
  function Kept(l: Line): (r: string)
  {
    Strip(Concat(l.spans))
  }

  /** `text_by_position` after one more line: its kept text appended to the group of its rounded top. */
  function AddKept(g: map<int, seq<string>>, l: Line): (r: map<int, seq<string>>)
  {
    if Kept(l) == "" then g
    else
      var y := RoundInt(l.top);
      g[y := (if y in g then g[y] else []) + [Kept(l)]]
  }

  /** The dictionary `text_by_position` after the lines `ls`. */
  function Grouped(ls: seq<Line>): (g: map<int, seq<string>>)
    decreases |ls|
  {
    if |ls| == 0 then map[] else AddKept(Grouped(ls[..|ls| - 1]), ls[|ls| - 1])
  }

  /** Reference definition: the kept, non-blank texts of the lines whose rounded top is `y`, in order. */
  function TextsAt(ls: seq<Line>, y: int): (r: seq<string>)
    decreases |ls|
  {
    if |ls| == 0 then []
    else
      var l := ls[|ls| - 1];
      TextsAt(ls[..|ls| - 1], y) + (if Kept(l) != "" && RoundInt(l.top) == y then [Kept(l)] else [])
  }

  /** Each group holds exactly the texts of its lines in encounter order, and only non-empty groups exist. */
  lemma {:induction false} GroupedIsTextsAt(ls: seq<Line>)
    ensures forall y :: y in Grouped(ls) <==> TextsAt(ls, y) != []
    ensures forall y :: y in Grouped(ls) ==> Grouped(ls)[y] == TextsAt(ls, y)
    decreases |ls|
  {
    if |ls| > 0 {
      GroupedIsTextsAt(ls[..|ls| - 1]);
    }
  }

  /** The rounded tops of the kept lines, each once, in the order the dictionary first sees them. */
  function Tops(ls: seq<Line>): (r: seq<int>)
    decreases |ls|
  {
    if |ls| == 0 then []
    else
      var t := Tops(ls[..|ls| - 1]);
      var l := ls[|ls| - 1];
      if Kept(l) == "" || RoundInt(l.top) in t then t else t + [RoundInt(l.top)]
  }

  predicate Distinct(xs: seq<int>)
  {
    forall i, j :: 0 <= i < j < |xs| ==> xs[i] != xs[j]
  }

  /** The dictionary's keys are the tops, each once. */
  lemma {:induction false} TopsAreKeys(ls: seq<Line>)
    ensures Distinct(Tops(ls))
    ensures forall y :: y in Tops(ls) <==> y in Grouped(ls)
    decreases |ls|
  {
    if |ls| > 0 {
      TopsAreKeys(ls[..|ls| - 1]);
    }
  }

  predicate Ascending(xs: seq<int>)
  {
    forall i, j :: 0 <= i < j < |xs| ==> xs[i] < xs[j]
  }

  /** `x` placed before the first element not below it. */
  function InsertSorted(x: int, r: seq<int>): (o: seq<int>)
    ensures forall y :: y in o <==> y == x || y in r
    decreases |r|
  {
    if |r| == 0 || x <= r[0] then [x] + r else [r[0]] + InsertSorted(x, r[1..])
  }

  /** Inserting a new element into an ascending sequence keeps it ascending. */
  lemma {:induction false} InsertSortedAscending(x: int, r: seq<int>)
    requires Ascending(r) && x !in r
    ensures Ascending(InsertSorted(x, r))
    decreases |r|
  {
    if |r| > 0 && x > r[0] {
      InsertSortedAscending(x, r[1..]);
      var t := InsertSorted(x, r[1..]);
      forall j | 0 <= j < |t|
        ensures r[0] < t[j]
      {
        assert t[j] in t;
      }
      assert InsertSorted(x, r) == [r[0]] + t;
    }
  }

  /** `sorted(keys)`: the same integers in ascending order. */
  function SortInts(xs: seq<int>): (r: seq<int>)
    ensures forall y :: y in r <==> y in xs
    decreases |xs|
  {
    if |xs| == 0 then [] else InsertSorted(xs[|xs| - 1], SortInts(xs[..|xs| - 1]))
  }

  /** Sorting distinct integers yields them strictly ascending. */
  lemma {:induction false} SortIntsAscending(xs: seq<int>)
    requires Distinct(xs)
    ensures Ascending(SortInts(xs))
    decreases |xs|
  {
    if |xs| > 0 {
      var init := xs[..|xs| - 1];
      assert Distinct(init);
      SortIntsAscending(init);
      assert xs[|xs| - 1] !in init;
      InsertSortedAscending(xs[|xs| - 1], SortInts(init));
    }
  }

  /** The sorted tops are strictly ascending and each one is a key of the dictionary. */
  lemma SortedTops(ls: seq<Line>)
    ensures Ascending(SortInts(Tops(ls)))
    ensures forall i :: 0 <= i < |SortInts(Tops(ls))| ==> SortInts(Tops(ls))[i] in Grouped(ls)
  {
    TopsAreKeys(ls);
    SortIntsAscending(Tops(ls));
    var ks := SortInts(Tops(ls));
    forall i | 0 <= i < |ks|
      ensures ks[i] in Grouped(ls)
    {
      assert ks[i] in ks;
    }
  }

  /** The group texts, each joined with single spaces, in the order of `ks`. */
  function Rows(g: map<int, seq<string>>, ks: seq<int>): (r: seq<string>)
    requires forall i :: 0 <= i < |ks| ==> ks[i] in g
  {
    seq(|ks|, i requires 0 <= i < |ks| => JoinWith(" ", g[ks[i]]))
  }

  /** The text of one page: its groups top to bottom, one per line, and a final newline. */
  function PageText(bs: seq<Block>): (r: string)
  {
    var ls := AllLines(bs);
    SortedTops(ls);
    JoinWith("\n", Rows(Grouped(ls), SortInts(Tops(ls)))) + "\n"
  }

  /** Reference rows: for each top in `ks`, the texts of the lines at that top joined with spaces. */
  function RowsAt(ls: seq<Line>, ks: seq<int>): (r: seq<string>)
  {
    seq(|ks|, i requires 0 <= i < |ks| => JoinWith(" ", TextsAt(ls, ks[i])))
  }

  /**
   * A page's text is its rows, one for each rounded top that some non-blank line has, in strictly
   * ascending order, each row the texts of those lines joined with spaces, then a newline.
   */
  lemma PageTextByRows(bs: seq<Block>)
    ensures var ls := AllLines(bs);
      var ks := SortInts(Tops(ls));
      Ascending(ks) && (forall y :: y in ks <==> TextsAt(ls, y) != []) &&
      PageText(bs) == JoinWith("\n", RowsAt(ls, ks)) + "\n"
  {
    var ls := AllLines(bs);
    var g := Grouped(ls);
    GroupedIsTextsAt(ls);
    TopsAreKeys(ls);
    SortedTops(ls);
    var ks := SortInts(Tops(ls));
    forall i | 0 <= i < |ks|
      ensures Rows(g, ks)[i] == RowsAt(ls, ks)[i]
    {
      assert ks[i] in g;
    }
    assert Rows(g, ks) == RowsAt(ls, ks);
  }

  lemma AllLinesStep(bs: seq<Block>, b: nat)
    requires b < |bs|
    ensures bs[b].TextBlock? ==> AllLines(bs[..b + 1]) == AllLines(bs[..b]) + bs[b].lines
    ensures bs[b].ImageBlock? ==> AllLines(bs[..b + 1]) == AllLines(bs[..b])
  {
    assert bs[..b + 1][..b] == bs[..b];
    assert AllLines(bs[..b]) + [] == AllLines(bs[..b]);
  }

  lemma GroupedStep(ls: seq<Line>, l: Line)
    ensures Grouped(ls + [l]) == AddKept(Grouped(ls), l)
    ensures Tops(ls + [l]) == if Kept(l) == "" || RoundInt(l.top) in Tops(ls) then Tops(ls) else Tops(ls) + [RoundInt(l.top)]
  {
    assert (ls + [l])[..|ls|] == ls;
  }

  /**
   * One line entered into `text_by_position` when its stripped text is not blank; `keys` is the
   * dictionary's key order.
   */
  method AddLine(g: map<int, seq<string>>, keys: seq<int>, ghost done: seq<Line>, l: Line)
    returns (g': map<int, seq<string>>, keys': seq<int>)
    requires g == Grouped(done) && keys == Tops(done)
    ensures g' == Grouped(done + [l]) && keys' == Tops(done + [l])
  {
    var lineText := ReadLine(l);
    var kept := Strip(lineText);
    GroupedStep(done, l);
    TopsAreKeys(done);
    if kept == "" {
      g', keys' := g, keys;
    } else {
      var y := RoundInt(l.top);
      var texts := if y in g then g[y] else [];
      if y !in g {
        keys' := keys + [y];
      } else {
        keys' := keys;
      }
      g' := g[y := texts + [kept]];
    }
  }

  /** The lines of one text block entered in order. */
  method AddLines(g: map<int, seq<string>>, keys: seq<int>, ghost done: seq<Line>, lines: seq<Line>)
    returns (g': map<int, seq<string>>, keys': seq<int>)
    requires g == Grouped(done) && keys == Tops(done)
    ensures g' == Grouped(done + lines) && keys' == Tops(done + lines)
  {
    g', keys' := g, keys;
    EmptySlice(done, lines);
    for l := 0 to |lines|
      invariant g' == Grouped(done + lines[..l]) && keys' == Tops(done + lines[..l])
    {
      g', keys' := AddLine(g', keys', done + lines[..l], lines[l]);
      SnocSlice(done, lines, l);
    }
    FullSlice(done, lines);
  }

  /** `text_by_position` filled from all lines of a page's text blocks, with its key order. */
  method GroupPage(bs: seq<Block>) returns (byY: map<int, seq<string>>, keys: seq<int>)
    ensures byY == Grouped(AllLines(bs)) && keys == Tops(AllLines(bs))
  {
    byY, keys := map[], [];
    for b := 0 to |bs|
      invariant byY == Grouped(AllLines(bs[..b])) && keys == Tops(AllLines(bs[..b]))
    {
      AllLinesStep(bs, b);
      if bs[b].TextBlock? {
        byY, keys := AddLines(byY, keys, AllLines(bs[..b]), bs[b].lines);
      }
    }
    assert bs[..|bs|] == bs;
  }

  /** The text of one page read from its blocks: the groups in ascending top, one per line. */
  method ReadPage(bs: seq<Block>) returns (text: string)
    ensures text == PageText(bs)
  {
    var byY, keys := GroupPage(bs);
    SortedTops(AllLines(bs));
    var rows := JoinGroups(byY, SortInts(keys));
    text := JoinWith("\n", rows) + "\n";
  }

  /** `sorted_text`: each group in the order `ks`, its texts joined with single spaces. */
  method JoinGroups(byY: map<int, seq<string>>, ks: seq<int>) returns (rows: seq<string>)
    requires forall i :: 0 <= i < |ks| ==> ks[i] in byY
    ensures rows == Rows(byY, ks)
  {
    rows := [];
    for j := 0 to |ks|
      invariant |rows| == j && forall i :: 0 <= i < j ==> rows[i] == JoinWith(" ", byY[ks[i]])
    {
      rows := rows + [JoinWith(" ", byY[ks[j]])];
    }
  }

  lemma EmptySlice<T>(a: seq<T>, b: seq<T>)
    ensures a + b[..0] == a
  {
  }

  lemma SnocSlice<T>(a: seq<T>, b: seq<T>, l: nat)
    requires l < |b|
    ensures a + b[..l + 1] == (a + b[..l]) + [b[l]]
  {
    assert b[..l + 1] == b[..l] + [b[l]];
  }

  lemma FullSlice<T>(a: seq<T>, b: seq<T>)
    ensures a + b[..|b|] == a + b
  {
    assert b[..|b|] == b;
  }

  /** The page at index `k`, Python-style (a negative index counts from the end), if it reads. */
  function PageAt(doc: Document, k: int): (r: Option<seq<Block>>)
    ensures r.Some? ==> (0 <= k < |doc| && doc[k] == r) || (-|doc| <= k < 0 && doc[k + |doc|] == r)
  {
    var idx := if k < 0 then k + |doc| else k;
    if 0 <= idx < |doc| then doc[idx] else None
  }

  /** What page `k` adds: its text, or nothing when indexing or reading it fails. */
  function PageContribution(doc: Document, k: int): (r: string)
  {
    match PageAt(doc, k)
    case Some(bs) => PageText(bs)
    case None => ""
  }

  /** The text of pages `lo` up to `hi` exclusive, in page order. */
  function PagesText(doc: Document, lo: int, hi: int): (r: string)
    decreases hi - lo
  {
    if hi <= lo then "" else PagesText(doc, lo, hi - 1) + PageContribution(doc, hi - 1)
  }

  /** `parse_pdf(doc, end_page, start_page)`: an absent end page means the page count. */
  function ParsePdfSpec(doc: Document, endPage: Option<int>, startPage: int): (r: string)
  {
    PagesText(doc, startPage, endPage.GetOr(|doc|))
  }

  /** Reads the pages one by one, skipping pages that fail, as `parse_pdf` does. */
  method ParsePdf(doc: Document, endPage: Option<int>, startPage: int) returns (text: string)
    ensures text == ParsePdfSpec(doc, endPage, startPage)
  {
    var last := if endPage.None? then |doc| else endPage.value;
    text := "";
    var k := startPage;
    while k < last
      invariant startPage <= k && (k <= last || k == startPage)
      invariant text == PagesText(doc, startPage, k)
      decreases last - k
    {
      var page := PageAt(doc, k);
      if page.Some? {
        var t := ReadPage(page.value);
        text := text + t;
      }
      k := k + 1;
    }
  }

  /** A text is empty or ends with a newline. */
  predicate EndsLine(s: string)
  {
    s == "" || s[|s| - 1] == '\n'
  }

  /**
   * The text of a page range ends with a newline, and it is empty exactly when no page of the range
   * can be read.
   */
  lemma {:induction false} PagesTextShape(doc: Document, lo: int, hi: int)
    ensures EndsLine(PagesText(doc, lo, hi))
    ensures PagesText(doc, lo, hi) == "" <==> forall k :: lo <= k < hi ==> PageAt(doc, k).None?
    decreases hi - lo
  {
    if lo < hi {
      PagesTextShape(doc, lo, hi - 1);
    }
  }

  /** Splitting a page range splits its text. */
  lemma {:induction false} PagesTextSplit(doc: Document, lo: int, mid: int, hi: int)
    requires lo <= mid <= hi
    ensures PagesText(doc, lo, hi) == PagesText(doc, lo, mid) + PagesText(doc, mid, hi)
    decreases hi - mid
  {
    if mid < hi {
      PagesTextSplit(doc, lo, mid, hi - 1);
    }
  }

  /** A page that fails to read is skipped: the text is that of the pages before it followed by those after. */
  lemma FailedPageSkipped(doc: Document, lo: int, k: int, hi: int)
    requires lo <= k < hi && 0 <= k < |doc| && doc[k].None?
    ensures PagesText(doc, lo, hi) == PagesText(doc, lo, k) + PagesText(doc, k + 1, hi)
  {
    PagesTextSplit(doc, lo, k + 1, hi);
    assert PagesText(doc, lo, k + 1) == PagesText(doc, lo, k);
  }
}
