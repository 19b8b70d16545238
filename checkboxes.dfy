/**
 * Layout geometry and checkbox reading of a disclosure form.
 *
 * A page is the PDF library's text dictionary (blocks of lines of spans), its vector drawings
 * and its height. Text blocks are scanned in vertical bands; an option is checked when a
 * filled, non-white square drawing sits just left of its label on the same line. Consecutive
 * pages are stitched into one coordinate space by shifting each page down by the heights of
 * the pages before it.
 */
module Checkboxes {

  import opened Wrappers
  import opened Text
  import opened Numbers
  import opened Regex
  import opened Constants

  datatype Rect = Rect(x0: real, y0: real, x1: real, y1: real)

  /** A block of the text dictionary: its type (0 for text), its box and its lines of span texts. */
  datatype RawBlock = RawBlock(kind: int, bbox: Rect, lines: seq<seq<string>>)

  /** A text block: its stripped text, its original box and the coordinates read from that box. */
  datatype TextBlock = TextBlock(text: string, bbox: Rect, x0: real, y0: real, y1: real)

  /** A vector drawing: its rectangle, its type ("f" for a fill) and its fill colour, if any. */
  datatype Drawing = Drawing(rect: Rect, kind: string, fill: Option<seq<real>>)

  datatype Page = Page(raw: seq<RawBlock>, drawings: seq<Drawing>, height: real)

  // ---------------------------------------------------------------- text blocks

  /** The spans of one line, each followed by a space. */
  function SpansText(spans: seq<string>): string
    decreases |spans|
  {
    if |spans| == 0 then "" else SpansText(spans[..|spans| - 1]) + spans[|spans| - 1] + " "
  }

  function LinesText(lines: seq<seq<string>>): string
    decreases |lines|
  {
    if |lines| == 0 then "" else LinesText(lines[..|lines| - 1]) + SpansText(lines[|lines| - 1])
  }

  function ToTextBlock(b: RawBlock): (t: TextBlock)
    ensures t.bbox == b.bbox && t.x0 == b.bbox.x0 && t.y0 == b.bbox.y0 && t.y1 == b.bbox.y1
    ensures t.text == Strip(LinesText(b.lines))
  {
    TextBlock(Strip(LinesText(b.lines)), b.bbox, b.bbox.x0, b.bbox.y0, b.bbox.y1)
  }

  /** The text blocks of a page: one per block of type 0, in order. */
  function TextBlocks(raw: seq<RawBlock>): (r: seq<TextBlock>)
    ensures |r| <= |raw|
    decreases |raw|
  {
    if |raw| == 0 then []
    else
      var b := raw[|raw| - 1];
      TextBlocks(raw[..|raw| - 1]) + (if b.kind == 0 then [ToTextBlock(b)] else [])
  }

  /** Every block converted, whatever its type. */
  function AllConverted(raw: seq<RawBlock>): (r: seq<TextBlock>)
    ensures |r| == |raw|
    decreases |raw|
  {
    if |raw| == 0 then [] else AllConverted(raw[..|raw| - 1]) + [ToTextBlock(raw[|raw| - 1])]
  }

  /** A page whose blocks are all of type 0 gives one text block per block, in order. */
  lemma {:induction false} AllTextBlocks(raw: seq<RawBlock>)
    requires forall i :: 0 <= i < |raw| ==> raw[i].kind == 0
    ensures TextBlocks(raw) == AllConverted(raw)
    decreases |raw|
  {
    if |raw| > 0 {
      var init := raw[..|raw| - 1];
      assert forall i :: 0 <= i < |init| ==> init[i] == raw[i];
      AllTextBlocks(init);
    }
  }

  /** A page without blocks of type 0 gives no text blocks. */
  lemma {:induction false} NoTextBlocks(raw: seq<RawBlock>)
    requires forall i :: 0 <= i < |raw| ==> raw[i].kind != 0
    ensures TextBlocks(raw) == []
    decreases |raw|
  {
    if |raw| > 0 {
      var init := raw[..|raw| - 1];
      assert forall i :: 0 <= i < |init| ==> init[i] == raw[i];
      NoTextBlocks(init);
    }
  }

  /** The loop concatenating one line's spans. */
  method LineText(spans: seq<string>) returns (text: string)
    ensures text == SpansText(spans)
  {
    text := "";
    var s := 0;
    while s < |spans|
      invariant 0 <= s <= |spans|
      invariant text == SpansText(spans[..s])
    {
      assert spans[..s + 1][..s] == spans[..s];
      text := text + spans[s] + " ";
      s := s + 1;
    }
    assert spans[..s] == spans;
  }

  /** The loop concatenating a block's lines. */
  method BlockText(lines: seq<seq<string>>) returns (text: string)
    ensures text == LinesText(lines)
  {
    text := "";
    var l := 0;
    while l < |lines|
      invariant 0 <= l <= |lines|
      invariant text == LinesText(lines[..l])
    {
      assert lines[..l + 1][..l] == lines[..l];
      var t := LineText(lines[l]);
      text := text + t;
      l := l + 1;
    }
    assert lines[..l] == lines;
  }

  method GetAllTextBlocks(raw: seq<RawBlock>) returns (blocks: seq<TextBlock>)
    ensures blocks == TextBlocks(raw)
  {
    blocks := [];
    var i := 0;
    while i < |raw|
      invariant 0 <= i <= |raw|
      invariant blocks == TextBlocks(raw[..i])
    {
      assert raw[..i + 1][..i] == raw[..i];
      var b := raw[i];
      if b.kind == 0 {
        var text := BlockText(b.lines);
        blocks := blocks + [TextBlock(Strip(text), b.bbox, b.bbox.x0, b.bbox.y0, b.bbox.y1)];
      }
      i := i + 1;
    }
    assert raw[..i] == raw;
  }

  // ---------------------------------------------------------------- checkboxes

  /** A fill colour is present, non-empty and not white. */
  predicate IsFilled(d: Drawing)
  {
    d.fill.Some? && d.fill.value != [] && d.fill.value != [1.0, 1.0, 1.0]
  }

  /** A filled drawing on the label's line (within `tol` vertically), ending left of the label. */
  predicate ChecksBlock(d: Drawing, b: TextBlock, tol: real)
  {
    Abs(d.rect.y0 - b.y0) < tol && d.rect.x1 <= b.x0 && d.kind == "f" && IsFilled(d)
  }

  predicate HasCheckedBox(ds: seq<Drawing>, b: TextBlock, tol: real)
  {
    exists k | 0 <= k < |ds| :: ChecksBlock(ds[k], b, tol)
  }

  /** A box seen within one tolerance is seen within any wider one. */
  lemma ToleranceWidens(ds: seq<Drawing>, b: TextBlock, tol: real, wider: real)
    requires tol <= wider
    requires HasCheckedBox(ds, b, tol)
    ensures HasCheckedBox(ds, b, wider)
  {
    var k :| 0 <= k < |ds| && ChecksBlock(ds[k], b, tol);
    assert ChecksBlock(ds[k], b, wider);
  }

  /** The loop over the drawings that stops at the first checked box. */
  method ScanForCheckedBox(ds: seq<Drawing>, b: TextBlock, tol: real) returns (checked: bool)
    ensures checked == HasCheckedBox(ds, b, tol)
  {
    checked := false;
    var k := 0;
    while k < |ds|
      invariant 0 <= k <= |ds|
      invariant !checked ==> forall j :: 0 <= j < k ==> !ChecksBlock(ds[j], b, tol)
      invariant checked ==> HasCheckedBox(ds, b, tol)
    {
      if ChecksBlock(ds[k], b, tol) {
        checked := true;
        break;
      }
      k := k + 1;
    }
  }

  // ---------------------------------------------------------------- block searches

  /** What a block search looks for: a pattern (case-insensitive) and where the block's top may be. */
  datatype Probe =
    | HalfOpen(p: Pattern, lo: real, hi: real)   // lo <= y0 < hi
    | Closed(p: Pattern, lo: real, hi: real)     // lo <= y0 <= hi
    | AtLeast(p: Pattern, lo: real)              // lo <= y0
    | Anywhere(p: Pattern)

  predicate Hits(b: TextBlock, q: Probe)
  {
    match q
    case HalfOpen(p, lo, hi) => lo <= b.y0 < hi && Found(p, b.text, true)
    case Closed(p, lo, hi) => lo <= b.y0 <= hi && Found(p, b.text, true)
    case AtLeast(p, lo) => lo <= b.y0 && Found(p, b.text, true)
    case Anywhere(p) => Found(p, b.text, true)
  }

  /** The first block at or after `from` that the probe hits. */
  function FirstHit(bs: seq<TextBlock>, q: Probe, from: nat): (r: Option<nat>)
    requires from <= |bs|
    ensures r.Some? ==> from <= r.value < |bs| && Hits(bs[r.value], q)
    decreases |bs| - from
  {
    if from == |bs| then None
    else if Hits(bs[from], q) then Some(from)
    else FirstHit(bs, q, from + 1)
  }

  /** The hit found is the first one, and None means no block from `from` on is hit. */
  lemma {:induction false} FirstHitIsFirst(bs: seq<TextBlock>, q: Probe, from: nat)
    requires from <= |bs|
    ensures FirstHit(bs, q, from).Some? ==> forall j :: from <= j < FirstHit(bs, q, from).value ==> !Hits(bs[j], q)
    ensures FirstHit(bs, q, from).None? ==> forall j :: from <= j < |bs| ==> !Hits(bs[j], q)
    decreases |bs| - from
  {
    if from < |bs| && !Hits(bs[from], q) {
      FirstHitIsFirst(bs, q, from + 1);
    }
  }

  /** Blocks `from` .. `j - 1` missed: the search from `from` is the search from `j`. */
  lemma {:induction false} FirstHitSkips(bs: seq<TextBlock>, q: Probe, from: nat, j: nat)
    requires from <= j <= |bs|
    requires forall i :: from <= i < j ==> !Hits(bs[i], q)
    ensures FirstHit(bs, q, from) == FirstHit(bs, q, j)
    decreases j - from
  {
    if from < j {
      FirstHitSkips(bs, q, from + 1, j);
    }
  }

  /** The loop over the blocks that stops at the first hit. */
  method FindFirst(bs: seq<TextBlock>, q: Probe) returns (k: Option<nat>)
    ensures k == FirstHit(bs, q, 0)
  {
    var j := 0;
    while j < |bs|
      invariant 0 <= j <= |bs|
      invariant FirstHit(bs, q, 0) == FirstHit(bs, q, j)
    {
      if Hits(bs[j], q) {
        return Some(j);
      }
      j := j + 1;
    }
    return None;
  }

  function BlockAt(bs: seq<TextBlock>, k: Option<nat>): (r: Option<TextBlock>)
    ensures r.Some? <==> k.Some? && k.value < |bs|
    ensures r.Some? ==> r.value == bs[k.value]
  {
    if k.Some? && k.value < |bs| then Some(bs[k.value]) else None
  }

  // ---------------------------------------------------------------- one option, one band

  /**
   * The tri-state of one option in the band [lo, hi): None when no block there matches the
   * pattern; otherwise whether the first such block has a checked box (tolerance 10).
   */
  function OptionState(bs: seq<TextBlock>, ds: seq<Drawing>, p: Pattern, lo: real, hi: real): Option<bool>
  {
    match FirstHit(bs, HalfOpen(p, lo, hi), 0)
    case None => None
    case Some(k) => Some(HasCheckedBox(ds, bs[k], 10.0))
  }

  /** An option is None exactly when no block of the band matches, else the first match's box decides. */
  lemma OptionStateMeaning(bs: seq<TextBlock>, ds: seq<Drawing>, p: Pattern, lo: real, hi: real)
    ensures OptionState(bs, ds, p, lo, hi).None? <==> forall j :: 0 <= j < |bs| ==> !Hits(bs[j], HalfOpen(p, lo, hi))
    ensures OptionState(bs, ds, p, lo, hi).Some? ==> exists k :: (0 <= k < |bs| && Hits(bs[k], HalfOpen(p, lo, hi)) &&
      (forall j :: 0 <= j < k ==> !Hits(bs[j], HalfOpen(p, lo, hi))) &&
      OptionState(bs, ds, p, lo, hi).value == HasCheckedBox(ds, bs[k], 10.0))
  {
    var q := HalfOpen(p, lo, hi);
    FirstHitIsFirst(bs, q, 0);
    var f := FirstHit(bs, q, 0);
    if f.Some? {
      assert Hits(bs[f.value], q);
    }
  }

  /** The entries of some options, in table order. */
  function OptionStates(bs: seq<TextBlock>, ds: seq<Drawing>, opts: seq<OptionSpec>, lo: real, hi: real): (r: seq<(string, Option<bool>)>)
    ensures |r| == |opts| && forall i :: 0 <= i < |opts| ==> r[i].0 == opts[i].key
    decreases |opts|
  {
    if |opts| == 0 then []
    else
      var o := opts[|opts| - 1];
      OptionStates(bs, ds, opts[..|opts| - 1], lo, hi) + [(o.key, OptionState(bs, ds, o.pattern, lo, hi))]
  }

  /** One entry per option, in table order, each decided by the first matching block of the band. */
  method FindOptionsInRange(bs: seq<TextBlock>, ds: seq<Drawing>, opts: seq<OptionSpec>, lo: real, hi: real)
    returns (r: seq<(string, Option<bool>)>)
    ensures r == OptionStates(bs, ds, opts, lo, hi)
  {
    r := [];
    var i := 0;
    while i < |opts|
      invariant 0 <= i <= |opts|
      invariant r == OptionStates(bs, ds, opts[..i], lo, hi)
    {
      assert opts[..i + 1][..i] == opts[..i];
      var state := FindOptionState(bs, ds, opts[i].pattern, lo, hi);
      r := r + [(opts[i].key, state)];
      i := i + 1;
    }
    assert opts[..i] == opts;
  }

  /** One option: the first matching block of the band, then its box. */
  method FindOptionState(bs: seq<TextBlock>, ds: seq<Drawing>, p: Pattern, lo: real, hi: real)
    returns (state: Option<bool>)
    ensures state == OptionState(bs, ds, p, lo, hi)
  {
    var k := FindFirst(bs, HalfOpen(p, lo, hi));
    state := None;
    if k.Some? {
      var checked := ScanForCheckedBox(ds, bs[k.value], 10.0);
      state := Some(checked);
    }
  }

  // ---------------------------------------------------------------- free-text "others" boxes

  datatype OthersResult = OthersResult(checked: bool, description: Option<string>)

  /** A block below the label (within the band) and at most 20 points left of it, with text longer than 3. */
  predicate Describes(b: TextBlock, head: TextBlock, hi: real)
  {
    head.y1 <= b.y0 < hi && b.x0 >= head.x0 - 20.0 && |Strip(b.text)| > 3
  }

  function DescriptionParts(bs: seq<TextBlock>, head: TextBlock, hi: real): (r: seq<string>)
    ensures |r| <= |bs|
    ensures forall k :: 0 <= k < |r| ==> |r[k]| > 3
    decreases |bs|
  {
    if |bs| == 0 then []
    else
      var b := bs[|bs| - 1];
      DescriptionParts(bs[..|bs| - 1], head, hi) + (if Describes(b, head, hi) then [Strip(b.text)] else [])
  }

  /**
   * A free-text option: checked when the first matching block of the band has a checked box
   * within 15 points; only then is the description the describing texts joined by spaces.
   */
  function OthersState(bs: seq<TextBlock>, ds: seq<Drawing>, lo: real, hi: real, p: Pattern): (r: OthersResult)
    ensures r.description.Some? ==> r.checked
    ensures r.checked <==> (FirstHit(bs, HalfOpen(p, lo, hi), 0).Some? &&
      HasCheckedBox(ds, bs[FirstHit(bs, HalfOpen(p, lo, hi), 0).value], 15.0))
    ensures r.checked ==> (r.description ==
      var k := FirstHit(bs, HalfOpen(p, lo, hi), 0).value;
      var parts := DescriptionParts(bs, bs[k], hi);
      if parts == [] then None else Some(JoinWith(" ", parts)))
  {
    match FirstHit(bs, HalfOpen(p, lo, hi), 0)
    case None => OthersResult(false, None)
    case Some(k) =>
      if !HasCheckedBox(ds, bs[k], 15.0) then OthersResult(false, None)
      else
        var parts := DescriptionParts(bs, bs[k], hi);
        OthersResult(true, if parts == [] then None else Some(JoinWith(" ", parts)))
  }

  /** Checked exactly when some block of the band matches and the first such block has a box within 15. */
  lemma OthersStateMeaning(bs: seq<TextBlock>, ds: seq<Drawing>, lo: real, hi: real, p: Pattern)
    ensures OthersState(bs, ds, lo, hi, p).checked <==> exists k :: (0 <= k < |bs| && Hits(bs[k], HalfOpen(p, lo, hi)) &&
      (forall j :: 0 <= j < k ==> !Hits(bs[j], HalfOpen(p, lo, hi))) && HasCheckedBox(ds, bs[k], 15.0))
  {
    var q := HalfOpen(p, lo, hi);
    FirstHitIsFirst(bs, q, 0);
    var f := FirstHit(bs, q, 0);
    if f.Some? {
      assert Hits(bs[f.value], q);
    }
    if exists k :: (0 <= k < |bs| && Hits(bs[k], q) && (forall j :: 0 <= j < k ==> !Hits(bs[j], q)) && HasCheckedBox(ds, bs[k], 15.0)) {
      var k :| 0 <= k < |bs| && Hits(bs[k], q) && (forall j :: 0 <= j < k ==> !Hits(bs[j], q)) && HasCheckedBox(ds, bs[k], 15.0);
      assert f.Some?;
      assert f.value == k;
    }
  }

  method ExtractOthersDescription(bs: seq<TextBlock>, ds: seq<Drawing>, lo: real, hi: real, p: Pattern)
    returns (r: OthersResult)
    ensures r == OthersState(bs, ds, lo, hi, p)
  {
    r := OthersResult(false, None);
    var k := FindFirst(bs, HalfOpen(p, lo, hi));
    if k.None? {
      return;
    }
    var checked := ScanForCheckedBox(ds, bs[k.value], 15.0);
    if checked {
      var parts := CollectDescription(bs, bs[k.value], hi);
      r := OthersResult(true, if parts == [] then None else Some(JoinWith(" ", parts)));
    }
  }

  lemma DescriptionPartsStep(bs: seq<TextBlock>, head: TextBlock, hi: real, j: nat)
    requires j < |bs|
    ensures DescriptionParts(bs[..j + 1], head, hi) ==
      DescriptionParts(bs[..j], head, hi) + (if Describes(bs[j], head, hi) then [Strip(bs[j].text)] else [])
  {
    assert bs[..j + 1][..j] == bs[..j];
  }

  /** The loop over all blocks that keeps the stripped texts describing the label `head`. */
  method CollectDescription(bs: seq<TextBlock>, head: TextBlock, hi: real) returns (parts: seq<string>)
    ensures parts == DescriptionParts(bs, head, hi)
  {
    parts := [];
    var j := 0;
    while j < |bs|
      invariant 0 <= j <= |bs|
      invariant parts == DescriptionParts(bs[..j], head, hi)
    {
      DescriptionPartsStep(bs, head, hi, j);
      var text := Strip(bs[j].text);
      if head.y1 <= bs[j].y0 < hi && bs[j].x0 >= head.x0 - 20.0 && |text| > 3 {
        parts := parts + [text];
      }
      j := j + 1;
    }
    assert bs[..j] == bs;
  }

  // ---------------------------------------------------------------- coordinates

  /** A box in bottom-left coordinates flipped to top-left ones for a page of height `h`. */
  function ConvertBbox(b: Rect, h: real): (r: Rect)
    ensures r.x0 == b.x0 && r.x1 == b.x1
    ensures r.y1 - r.y0 == b.y1 - b.y0
    ensures r.y0 + b.y1 == h
  {
    Rect(b.x0, h - b.y1, b.x1, h - b.y0)
  }

  /** Flipping twice with the same height gives the box back. */
  lemma ConvertTwice(b: Rect, h: real)
    ensures ConvertBbox(ConvertBbox(b, h), h) == b
  {
  }

  /** A block moved down by `off`: only its two vertical coordinates change. */
  function ShiftBlock(b: TextBlock, off: real): (r: TextBlock)
    ensures r.text == b.text && r.bbox == b.bbox && r.x0 == b.x0
    ensures r.y0 - b.y0 == off && r.y1 - b.y1 == off
  {
    b.(y0 := b.y0 + off, y1 := b.y1 + off)
  }

  /** A drawing moved down by `off`: only its rectangle's two vertical coordinates change. */
  function ShiftDrawing(d: Drawing, off: real): (r: Drawing)
    ensures r.kind == d.kind && r.fill == d.fill && r.rect.x0 == d.rect.x0 && r.rect.x1 == d.rect.x1
    ensures r.rect.y0 - d.rect.y0 == off && r.rect.y1 - d.rect.y1 == off
  {
    d.(rect := Rect(d.rect.x0, d.rect.y0 + off, d.rect.x1, d.rect.y1 + off))
  }

  /** Shifting a label and a drawing by the same offset keeps whether the drawing checks it. */
  lemma ShiftKeepsChecks(d: Drawing, b: TextBlock, tol: real, off: real)
    ensures ChecksBlock(ShiftDrawing(d, off), ShiftBlock(b, off), tol) == ChecksBlock(d, b, tol)
  {
    assert ShiftDrawing(d, off).rect.y0 - ShiftBlock(b, off).y0 == d.rect.y0 - b.y0;
  }

  /** Shifts compose, and a zero shift changes nothing. */
  lemma ShiftCompose(b: TextBlock, a: real, c: real)
    ensures ShiftBlock(ShiftBlock(b, a), c) == ShiftBlock(b, a + c)
    ensures ShiftBlock(b, 0.0) == b
  {
  }

  function ShiftBlocks(bs: seq<TextBlock>, off: real): (r: seq<TextBlock>)
    ensures |r| == |bs| && forall i :: 0 <= i < |bs| ==> r[i] == ShiftBlock(bs[i], off)
  {
    seq(|bs|, i requires 0 <= i < |bs| => ShiftBlock(bs[i], off))
  }

  function ShiftDrawings(ds: seq<Drawing>, off: real): (r: seq<Drawing>)
    ensures |r| == |ds| && forall i :: 0 <= i < |ds| ==> r[i] == ShiftDrawing(ds[i], off)
  {
    seq(|ds|, i requires 0 <= i < |ds| => ShiftDrawing(ds[i], off))
  }

  /** A copy of the blocks, same length and order, each moved down by the offset. */
  method AdjustBlockCoordinates(bs: seq<TextBlock>, off: real) returns (r: seq<TextBlock>)
    ensures r == ShiftBlocks(bs, off)
  {
    r := [];
    var i := 0;
    while i < |bs|
      invariant 0 <= i <= |bs|
      invariant |r| == i && forall j :: 0 <= j < i ==> r[j] == ShiftBlock(bs[j], off)
    {
      var b := bs[i];
      r := r + [b.(y0 := b.y0 + off, y1 := b.y1 + off)];
      i := i + 1;
    }
  }

  /** A copy of the drawings, same length and order, each rectangle moved down by the offset. */
  method AdjustDrawingCoordinates(ds: seq<Drawing>, off: real) returns (r: seq<Drawing>)
    ensures r == ShiftDrawings(ds, off)
  {
    r := [];
    var i := 0;
    while i < |ds|
      invariant 0 <= i <= |ds|
      invariant |r| == i && forall j :: 0 <= j < i ==> r[j] == ShiftDrawing(ds[j], off)
    {
      var d := ds[i];
      r := r + [d.(rect := Rect(d.rect.x0, d.rect.y0 + off, d.rect.x1, d.rect.y1 + off))];
      i := i + 1;
    }
  }

  // ---------------------------------------------------------------- stitching pages

  /** The summed heights of pages `first` .. `last - 1`. */
  function HeightSum(pages: seq<Page>, first: nat, last: nat): real
    requires first <= last <= |pages|
    decreases last
  {
    if last == first then 0.0 else HeightSum(pages, first, last - 1) + pages[last - 1].height
  }

  /** The end of `range(start, min(start + max_pages, page count))`. */
  function Stop(start: nat, maxPages: nat, n: nat): (r: nat)
    ensures r <= n && r <= start + maxPages
    ensures r == n || r == start + maxPages
  {
    if start + maxPages < n then start + maxPages else n
  }

  /** The blocks page `k` contributes when stitching from `start`: shifted unless it is the first. */
  function PageBlocks(pages: seq<Page>, start: nat, k: nat): seq<TextBlock>
    requires start <= k < |pages|
  {
    var bs := TextBlocks(pages[k].raw);
    if k > start then ShiftBlocks(bs, HeightSum(pages, start, k)) else bs
  }

  function PageDrawings(pages: seq<Page>, start: nat, k: nat): seq<Drawing>
    requires start <= k < |pages|
  {
    var ds := pages[k].drawings;
    if k > start then ShiftDrawings(ds, HeightSum(pages, start, k)) else ds
  }

  /** The blocks of pages `k` .. `stop - 1` of a stitch from `start`, in page order. */
  function GatheredBlocks(pages: seq<Page>, start: nat, k: nat, stop: nat): seq<TextBlock>
    requires start <= k && stop <= |pages|
    decreases stop - k
  {
    if k >= stop then [] else PageBlocks(pages, start, k) + GatheredBlocks(pages, start, k + 1, stop)
  }

  function GatheredDrawings(pages: seq<Page>, start: nat, k: nat, stop: nat): seq<Drawing>
    requires start <= k && stop <= |pages|
    decreases stop - k
  {
    if k >= stop then [] else PageDrawings(pages, start, k) + GatheredDrawings(pages, start, k + 1, stop)
  }

  /** The first page of a stitch comes first and unshifted; the page after it is shifted by the first page's height. */
  lemma GatheredStartsWithFirstPage(pages: seq<Page>, start: nat, stop: nat)
    requires start < stop <= |pages|
    ensures GatheredBlocks(pages, start, start, stop) ==
      TextBlocks(pages[start].raw) + GatheredBlocks(pages, start, start + 1, stop)
    ensures start + 1 < stop ==>
      (GatheredBlocks(pages, start, start + 1, stop) ==
       ShiftBlocks(TextBlocks(pages[start + 1].raw), pages[start].height) + GatheredBlocks(pages, start, start + 2, stop))
  {
    if start + 1 < stop {
      assert HeightSum(pages, start, start + 1) == pages[start].height;
    }
  }

  /** One page of a stitch: its blocks and drawings, moved down unless it is the first page. */
  method PageContent(pages: seq<Page>, start: nat, k: nat) returns (bs: seq<TextBlock>, ds: seq<Drawing>)
    requires start <= k < |pages|
    ensures bs == PageBlocks(pages, start, k) && ds == PageDrawings(pages, start, k)
  {
    bs := GetAllTextBlocks(pages[k].raw);
    ds := pages[k].drawings;
    if k > start {
      var off := HeightSum(pages, start, k);
      bs := AdjustBlockCoordinates(bs, off);
      ds := AdjustDrawingCoordinates(ds, off);
    }
  }

  lemma GatherStep(pages: seq<Page>, start: nat, k: nat, stop: nat, blocks: seq<TextBlock>, drawings: seq<Drawing>)
    requires start <= k < stop <= |pages|
    ensures blocks + GatheredBlocks(pages, start, k, stop) ==
      (blocks + PageBlocks(pages, start, k)) + GatheredBlocks(pages, start, k + 1, stop)
    ensures drawings + GatheredDrawings(pages, start, k, stop) ==
      (drawings + PageDrawings(pages, start, k)) + GatheredDrawings(pages, start, k + 1, stop)
  {
  }

  /** The combined blocks and drawings of at most `maxPages` pages from `start`. */
  method GatherPageContent(pages: seq<Page>, start: nat, maxPages: nat)
    returns (blocks: seq<TextBlock>, drawings: seq<Drawing>)
    ensures blocks == GatheredBlocks(pages, start, start, Stop(start, maxPages, |pages|))
    ensures drawings == GatheredDrawings(pages, start, start, Stop(start, maxPages, |pages|))
  {
    var stop := Stop(start, maxPages, |pages|);
    blocks, drawings := [], [];
    var k := start;
    while k < stop
      invariant start <= k
      invariant blocks + GatheredBlocks(pages, start, k, stop) == GatheredBlocks(pages, start, start, stop)
      invariant drawings + GatheredDrawings(pages, start, k, stop) == GatheredDrawings(pages, start, start, stop)
      decreases if k <= stop then stop - k else 0
    {
      var bs, ds := PageContent(pages, start, k);
      GatherStep(pages, start, k, stop, blocks, drawings);
      blocks := blocks + bs;
      drawings := drawings + ds;
      k := k + 1;
    }
  }

  // ---------------------------------------------------------------- subsection headers

  /** `^Acquisition\s+of\s*:\s*$` */
  const AcquisitionHeader: Pattern := [Bol, Lit("Acquisition"), Spaces, Lit("of"), OptSpaces, Lit(":"), OptSpaces, Eol]

  /** `^Disposal\s+of\s*:\s*$` */
  const DisposalHeader: Pattern := [Bol, Lit("Disposal"), Spaces, Lit("of"), OptSpaces, Lit(":"), OptSpaces, Eol]

  /** `^Other\s+circumstances\s*:\s*$` */
  const OtherCircumstancesHeader: Pattern :=
    [Bol, Lit("Other"), Spaces, Lit("circumstances"), OptSpaces, Lit(":"), OptSpaces, Eol]

  /** `Others\s*\(\s*please\s+specify\s*\)` */
  const OthersSpecifyHeader: Pattern :=
    [Lit("Others"), OptSpaces, Lit("("), OptSpaces, Lit("please"), Spaces, Lit("specify"), OptSpaces, Lit(")")]

  /** `Circumstance\s+giving\s+rise\s+to\s+the\s+interest` */
  const CircumstanceHeader: Pattern :=
    [Lit("Circumstance"), Spaces, Lit("giving"), Spaces, Lit("rise"), Spaces, Lit("to"), Spaces, Lit("the"), Spaces, Lit("interest")]

  /** `Corporate action.*Listed Issuer.*please specify` */
  const CorporateActionPattern: Pattern :=
    [Lit("Corporate action"), Rep(AnyButNewline, 0, None), Lit("Listed Issuer"), Rep(AnyButNewline, 0, None), Lit("please specify")]

  /** `Others\s*\(\s*please specify\s*\)` */
  const OthersSpecifyPattern: Pattern :=
    [Lit("Others"), OptSpaces, Lit("("), OptSpaces, Lit("please specify"), OptSpaces, Lit(")")]

  const CorporateActionKey: string := "Corporate action by Listed Issuer"

  /** The section header: the first block naming the circumstance, at most 50 points above the box. */
  function SectionHeader(bs: seq<TextBlock>, box: Rect): (r: Option<TextBlock>)
    ensures r.Some? ==> Found(CircumstanceHeader, r.value.text, true) && r.value.y0 >= box.y0 - 50.0
  {
    BlockAt(bs, FirstHit(bs, AtLeast(CircumstanceHeader, box.y0 - 50.0), 0))
  }

  method FindSectionHeader(bs: seq<TextBlock>, box: Rect) returns (r: Option<TextBlock>)
    ensures r == SectionHeader(bs, box)
  {
    var k := FindFirst(bs, AtLeast(CircumstanceHeader, box.y0 - 50.0));
    r := if k.Some? then Some(bs[k.value]) else None;
  }

  datatype Kind = AcquisitionKind | DisposalKind | OtherCircumstancesKind | OthersSpecifyKind

  /** The header kind of a block, tried in the order of the source's elif chain. */
  function KindOf(b: TextBlock): Option<Kind>
  {
    if Found(AcquisitionHeader, b.text, true) then Some(AcquisitionKind)
    else if Found(DisposalHeader, b.text, true) then Some(DisposalKind)
    else if Found(OtherCircumstancesHeader, b.text, true) then Some(OtherCircumstancesKind)
    else if Found(OthersSpecifyHeader, b.text, true) then Some(OthersSpecifyKind)
    else None
  }

  predicate IsHeaderOf(kindOf: TextBlock -> Option<Kind>, b: TextBlock, start: real, kind: Kind)
  {
    b.y0 >= start && kindOf(b) == Some(kind)
  }

  /** The last of the first `n` blocks that is a header of the kind at or below `start`. */
  function LastOfKind(kindOf: TextBlock -> Option<Kind>, bs: seq<TextBlock>, start: real, kind: Kind, n: nat): (r: Option<nat>)
    requires n <= |bs|
    ensures r.Some? ==> r.value < n && IsHeaderOf(kindOf, bs[r.value], start, kind)
    decreases n
  {
    if n == 0 then None
    else if IsHeaderOf(kindOf, bs[n - 1], start, kind) then Some(n - 1)
    else LastOfKind(kindOf, bs, start, kind, n - 1)
  }

  /** No header of the kind comes after the one found, and None means there is none. */
  lemma {:induction false} LastOfKindIsLast(kindOf: TextBlock -> Option<Kind>, bs: seq<TextBlock>, start: real, kind: Kind, n: nat)
    requires n <= |bs|
    ensures LastOfKind(kindOf, bs, start, kind, n).Some? ==>
      forall j :: LastOfKind(kindOf, bs, start, kind, n).value < j < n ==> !IsHeaderOf(kindOf, bs[j], start, kind)
    ensures LastOfKind(kindOf, bs, start, kind, n).None? ==> forall j :: 0 <= j < n ==> !IsHeaderOf(kindOf, bs[j], start, kind)
    decreases n
  {
    if n > 0 && !IsHeaderOf(kindOf, bs[n - 1], start, kind) {
      LastOfKindIsLast(kindOf, bs, start, kind, n - 1);
    }
  }

  datatype Subsections = Subsections(
    acquisition: Option<TextBlock>, disposal: Option<TextBlock>,
    otherCircumstances: Option<TextBlock>, othersSpecify: Option<TextBlock>)

  function SubsectionBlocks(kindOf: TextBlock -> Option<Kind>, bs: seq<TextBlock>, start: real): Subsections
  {
    Subsections(
      BlockAt(bs, LastOfKind(kindOf, bs, start, AcquisitionKind, |bs|)),
      BlockAt(bs, LastOfKind(kindOf, bs, start, DisposalKind, |bs|)),
      BlockAt(bs, LastOfKind(kindOf, bs, start, OtherCircumstancesKind, |bs|)),
      BlockAt(bs, LastOfKind(kindOf, bs, start, OthersSpecifyKind, |bs|)))
  }

  /** No block is the header of two kinds: the last headers of two kinds are different blocks. */
  lemma KindsDisjoint(kindOf: TextBlock -> Option<Kind>, bs: seq<TextBlock>, start: real, k1: Kind, k2: Kind)
    requires k1 != k2
    requires LastOfKind(kindOf, bs, start, k1, |bs|).Some? && LastOfKind(kindOf, bs, start, k2, |bs|).Some?
    ensures LastOfKind(kindOf, bs, start, k1, |bs|).value != LastOfKind(kindOf, bs, start, k2, |bs|).value
  {
  }

  /** The last header of each kind among the first `n` blocks. */
  function SubsectionsUpTo(kindOf: TextBlock -> Option<Kind>, bs: seq<TextBlock>, start: real, n: nat): Subsections
    requires n <= |bs|
  {
    Subsections(
      BlockAt(bs, LastOfKind(kindOf, bs, start, AcquisitionKind, n)),
      BlockAt(bs, LastOfKind(kindOf, bs, start, DisposalKind, n)),
      BlockAt(bs, LastOfKind(kindOf, bs, start, OtherCircumstancesKind, n)),
      BlockAt(bs, LastOfKind(kindOf, bs, start, OthersSpecifyKind, n)))
  }

  /** One block seen by the loop: a header at or below `start` replaces the block kept for its kind. */
  function Record(kindOf: TextBlock -> Option<Kind>, s: Subsections, b: TextBlock, start: real): Subsections
  {
    if b.y0 < start then s
    else
      match kindOf(b)
      case None => s
      case Some(AcquisitionKind) => s.(acquisition := Some(b))
      case Some(DisposalKind) => s.(disposal := Some(b))
      case Some(OtherCircumstancesKind) => s.(otherCircumstances := Some(b))
      case Some(OthersSpecifyKind) => s.(othersSpecify := Some(b))
  }

  lemma LastOfKindStep(kindOf: TextBlock -> Option<Kind>, bs: seq<TextBlock>, start: real, kind: Kind, i: nat)
    requires i < |bs|
    ensures BlockAt(bs, LastOfKind(kindOf, bs, start, kind, i + 1)) ==
      if IsHeaderOf(kindOf, bs[i], start, kind) then Some(bs[i]) else BlockAt(bs, LastOfKind(kindOf, bs, start, kind, i))
  {
  }

  lemma SubsectionsStep(kindOf: TextBlock -> Option<Kind>, bs: seq<TextBlock>, start: real, i: nat)
    requires i < |bs|
    ensures SubsectionsUpTo(kindOf, bs, start, i + 1) == Record(kindOf, SubsectionsUpTo(kindOf, bs, start, i), bs[i], start)
  {
    LastOfKindStep(kindOf, bs, start, AcquisitionKind, i);
    LastOfKindStep(kindOf, bs, start, DisposalKind, i);
    LastOfKindStep(kindOf, bs, start, OtherCircumstancesKind, i);
    LastOfKindStep(kindOf, bs, start, OthersSpecifyKind, i);
  }

  /** The loop that keeps, for each header kind, the last matching block at or below `start`. */
  method FindSubsectionBlocks(kindOf: TextBlock -> Option<Kind>, bs: seq<TextBlock>, start: real) returns (r: Subsections)
    ensures r == SubsectionBlocks(kindOf, bs, start)
  {
    r := Subsections(None, None, None, None);
    var i := 0;
    while i < |bs|
      invariant 0 <= i <= |bs|
      invariant r == SubsectionsUpTo(kindOf, bs, start, i)
    {
      var b := bs[i];
      SubsectionsStep(kindOf, bs, start, i);
      if b.y0 >= start {
        var kind := kindOf(b);
        if kind == Some(AcquisitionKind) {
          r := r.(acquisition := Some(b));
        } else if kind == Some(DisposalKind) {
          r := r.(disposal := Some(b));
        } else if kind == Some(OtherCircumstancesKind) {
          r := r.(otherCircumstances := Some(b));
        } else if kind == Some(OthersSpecifyKind) {
          r := r.(othersSpecify := Some(b));
        }
      }
      i := i + 1;
    }
  }

  // ---------------------------------------------------------------- bands

  /** A vertical band; either end may be missing (Python's None). */
  datatype Band = Band(start: Option<real>, end: Option<real>)

  datatype SectionRanges = SectionRanges(acquisition: Band, disposal: Band, otherCircumstances: Band, othersSpecify: Band)

  /** Bands whose start is present also have an end; the acquisition band is always complete. */
  predicate WellFormed(r: SectionRanges)
  {
    r.acquisition.start.Some? && r.acquisition.end.Some? &&
    (r.disposal.start.Some? ==> r.disposal.end.Some?) &&
    (r.otherCircumstances.start.Some? ==> r.otherCircumstances.end.Some?) &&
    (r.othersSpecify.start.Some? ==> r.othersSpecify.end.Some?)
  }

  /**
   * Each band runs from its header's bottom to the next header's top, or a fixed height when
   * that header is missing (150, 100, 120 points); the others-specify band is 200 points from
   * its header's top. Without an acquisition header the computation fails and falls back to
   * ((0, 0), (None, None), (None, None), (None, None)).
   */
  function CalculateSectionRanges(s: Subsections): (r: SectionRanges)
    ensures WellFormed(r)
    ensures s.acquisition.None? ==>
      r == SectionRanges(Band(Some(0.0), Some(0.0)), Band(None, None), Band(None, None), Band(None, None))
    ensures s.acquisition.Some? ==>
      (r.disposal.start.Some? <==> s.disposal.Some?) &&
      (r.otherCircumstances.start.Some? <==> s.otherCircumstances.Some?) &&
      (r.othersSpecify.start.Some? <==> s.othersSpecify.Some?)
  {
    match s.acquisition
    case None => SectionRanges(Band(Some(0.0), Some(0.0)), Band(None, None), Band(None, None), Band(None, None))
    case Some(acq) =>
      var acquisition := Band(Some(acq.y1), Some(if s.disposal.Some? then s.disposal.value.y0 else acq.y1 + 150.0));
      var disposal := Band(
        if s.disposal.Some? then Some(s.disposal.value.y1) else None,
        if s.otherCircumstances.Some? then Some(s.otherCircumstances.value.y0)
        else if s.disposal.Some? then Some(s.disposal.value.y1 + 100.0) else None);
      var other := Band(
        if s.otherCircumstances.Some? then Some(s.otherCircumstances.value.y1) else None,
        if s.othersSpecify.Some? then Some(s.othersSpecify.value.y0)
        else if s.otherCircumstances.Some? then Some(s.otherCircumstances.value.y1 + 120.0) else None);
      var specify := Band(
        if s.othersSpecify.Some? then Some(s.othersSpecify.value.y0) else None,
        if s.othersSpecify.Some? then Some(s.othersSpecify.value.y0 + 200.0) else None);
      SectionRanges(acquisition, disposal, other, specify)
  }

  /** Blocks in reading order: `a` ends at or above where `b` begins. */
  predicate Above(a: TextBlock, b: TextBlock)
  {
    a.y0 <= a.y1 <= b.y0 <= b.y1
  }

  /** With all four headers present in reading order, the four bands follow each other without overlap. */
  lemma BandsTile(s: Subsections)
    requires s.acquisition.Some? && s.disposal.Some? && s.otherCircumstances.Some? && s.othersSpecify.Some?
    requires Above(s.acquisition.value, s.disposal.value)
    requires Above(s.disposal.value, s.otherCircumstances.value)
    requires Above(s.otherCircumstances.value, s.othersSpecify.value)
    ensures var r := CalculateSectionRanges(s);
      r.acquisition.start.value <= r.acquisition.end.value <= r.disposal.start.value <=
      r.disposal.end.value <= r.otherCircumstances.start.value <= r.otherCircumstances.end.value <=
      r.othersSpecify.start.value < r.othersSpecify.end.value
    ensures var r := CalculateSectionRanges(s);
      r.acquisition.end.value == s.disposal.value.y0 &&
      r.disposal.end.value == s.otherCircumstances.value.y0 &&
      r.otherCircumstances.end.value == s.othersSpecify.value.y0
  {
  }

  /** A band start counts only when present and non-zero (Python truthiness). */
  predicate Truthy(x: Option<real>)
  {
    x.Some? && x.value != 0.0
  }

  // ---------------------------------------------------------------- results of one section

  /** A result entry: a tri-state checkbox, or the nested result of a free-text option. */
  datatype Entry = Flag(state: Option<bool>) | Nested(checked: bool, description: Option<string>)

  /** The four subsection results, in the order the source builds its dict. */
  datatype CircumstanceResults = CircumstanceResults(
    acquisition: seq<(string, Entry)>, disposal: seq<(string, Entry)>,
    otherCircumstances: seq<(string, Entry)>, othersSpecify: OthersResult)

  function Flags(states: seq<(string, Option<bool>)>): (r: seq<(string, Entry)>)
    ensures |r| == |states| && forall i :: 0 <= i < |states| ==> r[i] == (states[i].0, Flag(states[i].1))
  {
    seq(|states|, i requires 0 <= i < |states| => (states[i].0, Flag(states[i].1)))
  }

  /**
   * The results read from the given blocks and drawings: acquisition always; disposal and
   * other circumstances only when their band start is truthy, the latter followed by the
   * corporate-action free-text entry; others-specify only when its band start is truthy.
   */
  function ResultsFor(bs: seq<TextBlock>, ds: seq<Drawing>, r: SectionRanges): (res: CircumstanceResults)
    requires WellFormed(r)
    ensures |res.acquisition| == |AcquisitionOptions|
    ensures forall i :: 0 <= i < |AcquisitionOptions| ==> res.acquisition[i].0 == AcquisitionOptions[i].key
    ensures res.disposal == [] || |res.disposal| == |DisposalOptions|
    ensures res.otherCircumstances == [] || |res.otherCircumstances| == |OtherOptions| + 1
    ensures !Truthy(r.othersSpecify.start) ==> res.othersSpecify == OthersResult(false, None)
  {
    var acquisition := Flags(OptionStates(bs, ds, AcquisitionOptions, r.acquisition.start.value, r.acquisition.end.value));
    var disposal :=
      if Truthy(r.disposal.start) then Flags(OptionStates(bs, ds, DisposalOptions, r.disposal.start.value, r.disposal.end.value))
      else [];
    var other :=
      if Truthy(r.otherCircumstances.start) then
        var lo, hi := r.otherCircumstances.start.value, r.otherCircumstances.end.value;
        var corporate := OthersState(bs, ds, lo, hi, CorporateActionPattern);
        Flags(OptionStates(bs, ds, OtherOptions, lo, hi)) + [(CorporateActionKey, Nested(corporate.checked, corporate.description))]
      else [];
    var specify :=
      if Truthy(r.othersSpecify.start) then OthersState(bs, ds, r.othersSpecify.start.value, r.othersSpecify.end.value, OthersSpecifyPattern)
      else OthersResult(false, None);
    CircumstanceResults(acquisition, disposal, other, specify)
  }

  method BuildResults(bs: seq<TextBlock>, ds: seq<Drawing>, r: SectionRanges) returns (res: CircumstanceResults)
    requires WellFormed(r)
    ensures res == ResultsFor(bs, ds, r)
  {
    var a := FindOptionsInRange(bs, ds, AcquisitionOptions, r.acquisition.start.value, r.acquisition.end.value);
    var acquisition := Flags(a);
    var disposal: seq<(string, Entry)> := [];
    if Truthy(r.disposal.start) {
      var d := FindOptionsInRange(bs, ds, DisposalOptions, r.disposal.start.value, r.disposal.end.value);
      disposal := Flags(d);
    }
    var other: seq<(string, Entry)> := [];
    if Truthy(r.otherCircumstances.start) {
      var lo, hi := r.otherCircumstances.start.value, r.otherCircumstances.end.value;
      var o := FindOptionsInRange(bs, ds, OtherOptions, lo, hi);
      var corporate := ExtractOthersDescription(bs, ds, lo, hi, CorporateActionPattern);
      other := Flags(o) + [(CorporateActionKey, Nested(corporate.checked, corporate.description))];
    }
    var specify := OthersResult(false, None);
    if Truthy(r.othersSpecify.start) {
      specify := ExtractOthersDescription(bs, ds, r.othersSpecify.start.value, r.othersSpecify.end.value, OthersSpecifyPattern);
    }
    res := CircumstanceResults(acquisition, disposal, other, specify);
  }

  // ---------------------------------------------------------------- the page loops

  /** A result and the 1-based page it came from. */
  datatype CheckboxHit = CheckboxHit(page: nat, results: CircumstanceResults)

  /**
   * One page of the search from a section's page: its header (the section box flipped with
   * this page's height, tried on this page's blocks), then up to three stitched pages read
   * below the header. A page without a header, or without an acquisition header, gives None.
   */
  function CircumstanceAttempt(pages: seq<Page>, idx: nat, box: Rect): Option<CircumstanceResults>
    requires idx < |pages|
  {
    match SectionHeader(TextBlocks(pages[idx].raw), ConvertBbox(box, pages[idx].height))
    case None => None
    case Some(head) =>
      var stop := Stop(idx, 3, |pages|);
      var bs := GatheredBlocks(pages, idx, idx, stop);
      var subs := SubsectionBlocks(KindOf, bs, head.y1);
      if subs.acquisition.None? then None
      else Some(ResultsFor(bs, GatheredDrawings(pages, idx, idx, stop), CalculateSectionRanges(subs)))
  }

  function CircumstanceFrom(pages: seq<Page>, idx: nat, stop: nat, box: Rect): (r: Option<CheckboxHit>)
    requires stop <= |pages|
    ensures r.Some? ==> idx < r.value.page <= stop
    ensures r.Some? ==> |r.value.results.acquisition| == |AcquisitionOptions|
    decreases stop - idx
  {
    if idx >= stop then None
    else
      match CircumstanceAttempt(pages, idx, box)
      case Some(res) => Some(CheckboxHit(idx + 1, res))
      case None => CircumstanceFrom(pages, idx + 1, stop, box)
  }

  /** One page of the search: the page's own header, then the stitched pages below it. */
  method CircumstancePage(pages: seq<Page>, idx: nat, box: Rect) returns (r: Option<CircumstanceResults>)
    requires idx < |pages|
    ensures r == CircumstanceAttempt(pages, idx, box)
  {
    var own := GetAllTextBlocks(pages[idx].raw);
    var head := FindSectionHeader(own, ConvertBbox(box, pages[idx].height));
    if head.None? {
      return None;
    }
    var bs, ds := GatherPageContent(pages, idx, 3);
    var subs := FindSubsectionBlocks(KindOf, bs, head.value.y1);
    var res := BuildResults(bs, ds, CalculateSectionRanges(subs));
    if subs.acquisition.None? {
      return None;
    }
    return Some(res);
  }

  /** The first of the section's page and the two after it that yields a result. */
  method ExtractCircumstanceInterestCheckbox(pages: seq<Page>, pageNumber: nat, box: Rect) returns (r: Option<CheckboxHit>)
    ensures r == CircumstanceFrom(pages, pageNumber, Stop(pageNumber, 3, |pages|), box)
    ensures r.Some? ==> pageNumber < r.value.page <= pageNumber + 3
  {
    var stop := Stop(pageNumber, 3, |pages|);
    var idx := pageNumber;
    while idx < stop
      invariant pageNumber <= idx
      invariant CircumstanceFrom(pages, pageNumber, stop, box) == CircumstanceFrom(pages, idx, stop, box)
      decreases if idx <= stop then stop - idx else 0
    {
      var res := CircumstancePage(pages, idx, box);
      if res.Some? {
        return Some(CheckboxHit(idx + 1, res.value));
      }
      idx := idx + 1;
    }
    return None;
  }

  /** One page of the fallback: the first block matching the section pattern, then that page alone. */
  function FallbackAttempt(pages: seq<Page>, idx: nat, section: Pattern): Option<CircumstanceResults>
    requires idx < |pages|
  {
    var bs := TextBlocks(pages[idx].raw);
    match FirstHit(bs, Anywhere(section), 0)
    case None => None
    case Some(k) => Some(ResultsFor(bs, pages[idx].drawings, CalculateSectionRanges(SubsectionBlocks(KindOf, bs, bs[k].y1))))
  }

  function FallbackFrom(pages: seq<Page>, idx: nat, section: Pattern): (r: Option<CheckboxHit>)
    ensures r.Some? ==> idx < r.value.page <= |pages|
    decreases |pages| - idx
  {
    if idx >= |pages| then None
    else
      match FallbackAttempt(pages, idx, section)
      case Some(res) => Some(CheckboxHit(idx + 1, res))
      case None => FallbackFrom(pages, idx + 1, section)
  }

  /** From the third page on, the first page with a section header gives its results. */
  method ExtractCheckboxFallback(pages: seq<Page>, section: Pattern) returns (r: Option<CheckboxHit>)
    ensures r == FallbackFrom(pages, 2, section)
  {
    var idx := 2;
    while idx < |pages|
      invariant 2 <= idx
      invariant FallbackFrom(pages, 2, section) == FallbackFrom(pages, idx, section)
      decreases |pages| - idx
    {
      var bs := GetAllTextBlocks(pages[idx].raw);
      var k := FindFirst(bs, Anywhere(section));
      if k.Some? {
        var subs := FindSubsectionBlocks(KindOf, bs, bs[k.value].y1);
        var res := BuildResults(bs, pages[idx].drawings, CalculateSectionRanges(subs));
        return Some(CheckboxHit(idx + 1, res));
      }
      idx := idx + 1;
    }
    return None;
  }

  // ---------------------------------------------------------------- type of securities

  /** One type-of-securities option: the box of its first block in the closed band, if there is one. */
  function TypeState(bs: seq<TextBlock>, ds: seq<Drawing>, p: Pattern, lo: real, hi: real): Option<bool>
  {
    match FirstHit(bs, Closed(p, lo, hi), 0)
    case None => None
    case Some(k) => Some(HasCheckedBox(ds, bs[k], 10.0))
  }

  /**
   * The type-of-securities options found in the band [lo, hi] (both ends included): an
   * option whose label is not found gets no entry at all.
   */
  function TypeStates(bs: seq<TextBlock>, ds: seq<Drawing>, opts: seq<OptionSpec>, lo: real, hi: real): (r: seq<(string, bool)>)
    ensures |r| <= |opts|
    ensures forall e :: 0 <= e < |r| ==> exists i :: 0 <= i < |opts| && opts[i].key == r[e].0
    decreases |opts|
  {
    if |opts| == 0 then []
    else
      var init := TypeStates(bs, ds, opts[..|opts| - 1], lo, hi);
      var o := opts[|opts| - 1];
      assert forall i :: 0 <= i < |opts| - 1 ==> opts[..|opts| - 1][i] == opts[i];
      match TypeState(bs, ds, o.pattern, lo, hi)
      case None => init
      case Some(c) => init + [(o.key, c)]
  }

  datatype TypeHit = TypeHit(page: nat, results: seq<(string, bool)>)

  function TypeAttempt(pages: seq<Page>, idx: nat, section: Pattern, range: real): (r: Option<seq<(string, bool)>>)
    requires idx < |pages|
    ensures r.Some? ==> r.value != []
  {
    var bs := TextBlocks(pages[idx].raw);
    match FirstHit(bs, Anywhere(section), 0)
    case None => None
    case Some(k) =>
      var res := TypeStates(bs, pages[idx].drawings, TypeSecuritiesOptions, bs[k].y1, bs[k].y1 + range);
      if res == [] then None else Some(res)
  }

  function TypeSecuritiesFrom(pages: seq<Page>, idx: nat, section: Pattern, range: real): (r: Option<TypeHit>)
    ensures r.Some? ==> idx < r.value.page <= |pages| && r.value.results != []
    decreases |pages| - idx
  {
    if idx >= |pages| then None
    else
      match TypeAttempt(pages, idx, section, range)
      case Some(res) => Some(TypeHit(idx + 1, res))
      case None => TypeSecuritiesFrom(pages, idx + 1, section, range)
  }

  /** The type-of-securities states found in one band. */
  method TypeStatesIn(bs: seq<TextBlock>, ds: seq<Drawing>, opts: seq<OptionSpec>, lo: real, hi: real)
    returns (results: seq<(string, bool)>)
    ensures results == TypeStates(bs, ds, opts, lo, hi)
  {
    results := [];
    var i := 0;
    while i < |opts|
      invariant 0 <= i <= |opts|
      invariant results == TypeStates(bs, ds, opts[..i], lo, hi)
    {
      assert opts[..i + 1][..i] == opts[..i];
      var state := FindTypeState(bs, ds, opts[i].pattern, lo, hi);
      if state.Some? {
        results := results + [(opts[i].key, state.value)];
      }
      i := i + 1;
    }
    assert opts[..i] == opts;
  }

  method FindTypeState(bs: seq<TextBlock>, ds: seq<Drawing>, p: Pattern, lo: real, hi: real) returns (state: Option<bool>)
    ensures state == TypeState(bs, ds, p, lo, hi)
  {
    var j := FindFirst(bs, Closed(p, lo, hi));
    state := None;
    if j.Some? {
      var checked := ScanForCheckedBox(ds, bs[j.value], 10.0);
      state := Some(checked);
    }
  }

  /** One page of the type-of-securities search. */
  method TypePage(pages: seq<Page>, idx: nat, section: Pattern, range: real) returns (r: Option<seq<(string, bool)>>)
    requires idx < |pages|
    ensures r == TypeAttempt(pages, idx, section, range)
  {
    var bs := GetAllTextBlocks(pages[idx].raw);
    var k := FindFirst(bs, Anywhere(section));
    if k.None? {
      return None;
    }
    var lo := bs[k.value].y1;
    var results := TypeStatesIn(bs, pages[idx].drawings, TypeSecuritiesOptions, lo, lo + range);
    if results == [] {
      return None;
    }
    return Some(results);
  }

  /** The first page whose section lists at least one type-of-securities option. */
  method ExtractTypeSecuritiesCheckbox(pages: seq<Page>, section: Pattern, range: real) returns (r: Option<TypeHit>)
    ensures r == TypeSecuritiesFrom(pages, 0, section, range)
  {
    var idx := 0;
    while idx < |pages|
      invariant TypeSecuritiesFrom(pages, 0, section, range) == TypeSecuritiesFrom(pages, idx, section, range)
      decreases |pages| - idx
    {
      var res := TypePage(pages, idx, section, range);
      if res.Some? {
        return Some(TypeHit(idx + 1, res.value));
      }
      idx := idx + 1;
    }
    return None;
  }
}
