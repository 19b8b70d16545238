/**
 * Share tables: the holdings table of a filing is recognised by phrases in its text and,
 * when it runs over a page break, its pieces are merged back together.
 * A cell is `None` or a string; a table is a list of rows of cells.
 */
module ShareTables {

  import opened Wrappers
  import opened Text

  type Row = seq<Option<string>>
  type Table = seq<Row>

  /** A table found on a page (`{'page': ..., 'table': ...}`). */
  datatype TableItem = TableItem(page: int, table: Table)

  // ---------------------------------------------------------------- table text

  /** `[str(cell) for cell in row if cell]`: the non-empty cells of a row, in order. */
  function CellTexts(row: Row): (r: seq<string>)
    ensures |r| <= |row|
    ensures forall k :: 0 <= k < |r| ==> r[k] != ""
    ensures forall k :: 0 <= k < |r| ==> Some(r[k]) in row
    decreases |row|
  {
    if |row| == 0 then []
    else
      var init := CellTexts(row[..|row| - 1]);
      var c := row[|row| - 1];
      assert forall x :: x in row[..|row| - 1] ==> x in row;
      if TruthyString(c) then init + [c.value] else init
  }

  /** The cells of one row joined by single spaces. */
  function RowText(row: Row): string
  {
    JoinWith(" ", CellTexts(row))
  }

  function RowTexts(t: Table): (r: seq<string>)
    ensures |r| == |t|
    ensures forall k :: 0 <= k < |t| ==> r[k] == RowText(t[k])
  {
    seq(|t|, k requires 0 <= k < |t| => RowText(t[k]))
  }

  /** The whole table as one lower-case line with runs of whitespace collapsed to one space. */
  function CleanText(t: Table): string
  {
    JoinWith(" ", SplitWs(Lower(JoinWith(" ", RowTexts(t)))))
  }

  // ---------------------------------------------------------------- the share rule

  predicate MentionsRights(s: string)
  {
    Contains(s, "rights/options/warrants held") || Contains(s, "rights/options/warrants over")
  }

  predicate MentionsVoting(s: string)
  {
    Contains(s, "voting shares/units") || Contains(s, "ordinary voting units")
  }

  predicate MentionsImmediate(s: string)
  {
    Contains(s, "immediately before") || Contains(s, "immediately after")
  }

  predicate MentionsInterests(s: string)
  {
    Contains(s, "direct interest") && Contains(s, "deemed interest")
  }

  /** The rule chain on the cleaned text, test by test. */
  predicate ShareRuleOn(s: string)
  {
    if MentionsRights(s) && !MentionsVoting(s) then false
    else if MentionsImmediate(s) && MentionsInterests(s) then
      if MentionsVoting(s) then true
      else if MentionsRights(s) then false
      else true
    else if MentionsVoting(s) then true
    else if Contains(s, "convertible debentures") && MentionsVoting(s) then true
    else false
  }

  /** Whether a table is a holdings table of voting shares. */
  predicate ContainsShareRule(t: Table)
  {
    ShareRuleOn(CleanText(t))
  }

  /**
   * The rule in closed form: a mention of voting shares decides it; otherwise the table
   * must speak of interests immediately before or after and must not be about rights,
   * options or warrants. The convertible-debentures test never decides anything.
   */
  lemma ShareRuleClosedForm(t: Table)
    ensures ContainsShareRule(t) <==>
      MentionsVoting(CleanText(t)) ||
      (!MentionsRights(CleanText(t)) && MentionsImmediate(CleanText(t)) && MentionsInterests(CleanText(t)))
  {
  }

  /** A table that speaks of rights, options or warrants and not of voting shares is never a share table. */
  lemma RightsTableRejected(t: Table)
    requires MentionsRights(CleanText(t)) && !MentionsVoting(CleanText(t))
    ensures !ContainsShareRule(t)
  {
  }

  // ---------------------------------------------------------------- merging

  /** Every row of the table mentions "as a percentage" (true of the empty table). */
  predicate PercentageOnly(t: Table)
  {
    forall k | 0 <= k < |t| :: Contains(Lower(RowText(t[k])), "as a percentage")
  }

  /**
   * The merge from item `i` on, `merged` holding what has been gathered so far. A table
   * on the page after its predecessor (or the same page) is appended when it is all
   * percentage rows or its first row differs from the merged first row; any other table
   * is dropped. Comparing with the merged first row when nothing has been gathered yet is
   * an IndexError, here None.
   */
  function MergeFrom(items: seq<TableItem>, i: nat, merged: Table): Option<Table>
    requires 1 <= i <= |items|
    decreases |items| - i
  {
    if i == |items| then Some(merged)
    else
      var cur := items[i].table;
      if items[i].page - items[i - 1].page <= 1 then
        if PercentageOnly(cur) then MergeFrom(items, i + 1, merged + cur)
        else if merged == [] then None
        else if cur[0] != merged[0] then MergeFrom(items, i + 1, merged + cur)
        else MergeFrom(items, i + 1, merged)
      else MergeFrom(items, i + 1, merged)
  }

  /** `merge_tables`: no items give no rows; otherwise the merge starts from the first table. */
  function MergeSpec(items: seq<TableItem>): Option<Table>
  {
    if items == [] then Some([]) else MergeFrom(items, 1, items[0].table)
  }

  /** The merge: the first table is extended with each continuation, in item order. */
  method MergeTables(items: seq<TableItem>) returns (r: Option<Table>)
    ensures r == MergeSpec(items)
  {
    if items == [] {
      return Some([]);
    }
    var merged := items[0].table;
    var i := 1;
    while i < |items|
      invariant 1 <= i <= |items|
      invariant MergeFrom(items, i, merged) == MergeSpec(items)
    {
      var cur := items[i].table;
      if items[i].page - items[i - 1].page <= 1 {
        if PercentageOnly(cur) {
          merged := merged + cur;
        } else if merged == [] {
          return None;
        } else if cur[0] != merged[0] {
          merged := merged + cur;
        }
      }
      i := i + 1;
    }
    return Some(merged);
  }

  /** The merge only ever appends: what was gathered stays at the front. */
  lemma {:induction false} MergeFromKeepsPrefix(items: seq<TableItem>, i: nat, merged: Table)
    requires 1 <= i <= |items|
    ensures MergeFrom(items, i, merged).Some? ==>
      |merged| <= |MergeFrom(items, i, merged).value| &&
      MergeFrom(items, i, merged).value[..|merged|] == merged
    decreases |items| - i
  {
    if i < |items| {
      var cur := items[i].table;
      MergeFromKeepsPrefix(items, i + 1, merged);
      MergeFromKeepsPrefix(items, i + 1, merged + cur);
      var r := MergeFrom(items, i, merged);
      if r.Some? && r == MergeFrom(items, i + 1, merged + cur) {
        assert r.value[..|merged|] == r.value[..|merged + cur|][..|merged|];
      }
    }
  }

  /** Once something is gathered the merge cannot fail. */
  lemma {:induction false} MergeFromNonEmpty(items: seq<TableItem>, i: nat, merged: Table)
    requires 1 <= i <= |items| && merged != []
    ensures MergeFrom(items, i, merged).Some?
    decreases |items| - i
  {
    if i < |items| {
      MergeFromNonEmpty(items, i + 1, merged);
      MergeFromNonEmpty(items, i + 1, merged + items[i].table);
    }
  }

  /** Every merged row is a row of one of the items. */
  lemma {:induction false} MergeFromRowsFromItems(items: seq<TableItem>, i: nat, merged: Table)
    requires 1 <= i <= |items|
    ensures MergeFrom(items, i, merged).Some? ==>
      forall row :: row in MergeFrom(items, i, merged).value ==>
        row in merged || exists k :: i <= k < |items| && row in items[k].table
    decreases |items| - i
  {
    if i < |items| {
      MergeFromRowsFromItems(items, i + 1, merged);
      MergeFromRowsFromItems(items, i + 1, merged + items[i].table);
    }
  }

  /** Tables more than a page after their predecessor are never merged. */
  lemma {:induction false} MergeFromDistantPages(items: seq<TableItem>, i: nat, merged: Table)
    requires 1 <= i <= |items|
    requires forall k :: i <= k < |items| ==> items[k].page - items[k - 1].page > 1
    ensures MergeFrom(items, i, merged) == Some(merged)
    decreases |items| - i
  {
    if i < |items| {
      MergeFromDistantPages(items, i + 1, merged);
    }
  }

  /**
   * What the merge promises: the first table comes first and unchanged, nothing is invented,
   * and the result is only missing when the first table is empty.
   */
  lemma MergeProperties(items: seq<TableItem>)
    requires items != []
    ensures items[0].table != [] ==> MergeSpec(items).Some?
    ensures MergeSpec(items).Some? ==>
      |items[0].table| <= |MergeSpec(items).value| &&
      MergeSpec(items).value[..|items[0].table|] == items[0].table
    ensures MergeSpec(items).Some? ==>
      forall row :: row in MergeSpec(items).value ==> exists k :: 0 <= k < |items| && row in items[k].table
    ensures (forall k :: 1 <= k < |items| ==> items[k].page - items[k - 1].page > 1) ==>
      MergeSpec(items) == Some(items[0].table)
  {
    if items[0].table != [] {
      MergeFromNonEmpty(items, 1, items[0].table);
    }
    MergeFromKeepsPrefix(items, 1, items[0].table);
    MergeFromRowsFromItems(items, 1, items[0].table);
    if forall k :: 1 <= k < |items| ==> items[k].page - items[k - 1].page > 1 {
      MergeFromDistantPages(items, 1, items[0].table);
    }
  }

  // ---------------------------------------------------------------- gathering

  /** The tables of one page, tagged with the page index. */
  function Tagged(page: int, ts: seq<Table>): (r: seq<TableItem>)
    ensures |r| == |ts|
    ensures forall k :: 0 <= k < |ts| ==> r[k] == TableItem(page, ts[k])
  {
    seq(|ts|, k requires 0 <= k < |ts| => TableItem(page, ts[k]))
  }

  /** The tagged tables of pages `k` .. `stop - 1`. */
  function PagesFrom(pages: seq<seq<Table>>, k: nat, stop: nat): seq<TableItem>
    requires stop <= |pages|
    decreases stop - k
  {
    if k >= stop then [] else Tagged(k, pages[k]) + PagesFrom(pages, k + 1, stop)
  }

  /** The end of `range(page_number + 1, min(page count, page_number + 4))`. */
  function NextStop(pageNumber: nat, n: nat): (r: nat)
    ensures r <= n && r <= pageNumber + 4
  {
    if pageNumber + 4 < n then pageNumber + 4 else n
  }

  /** The candidates: the cropped tables of the section's page, then every table of the next three pages. */
  function FoundTables(pages: seq<seq<Table>>, pageNumber: nat, cropped: seq<Table>): seq<TableItem>
  {
    Tagged(pageNumber, cropped) + PagesFrom(pages, pageNumber + 1, NextStop(pageNumber, |pages|))
  }

  /** The non-empty candidates that pass the share rule, in order. */
  function Matching(items: seq<TableItem>): (r: seq<TableItem>)
    ensures |r| <= |items|
    ensures forall k :: 0 <= k < |r| ==> r[k] in items && r[k].table != [] && ContainsShareRule(r[k].table)
    decreases |items|
  {
    if |items| == 0 then []
    else
      var init := Matching(items[..|items| - 1]);
      var x := items[|items| - 1];
      assert forall y :: y in items[..|items| - 1] ==> y in items;
      if x.table != [] && ContainsShareRule(x.table) then init + [x] else init
  }

  /** `extract_share_tables` as a value: a missing page or no matching table gives None. */
  function ShareTablesSpec(pages: seq<seq<Table>>, pageNumber: nat, cropped: seq<Table>): Option<Table>
  {
    if pageNumber >= |pages| then None
    else
      var m := Matching(FoundTables(pages, pageNumber, cropped));
      if m == [] then None else MergeSpec(m)
  }

  /** The candidate tables, page by page. */
  method GatherTables(pages: seq<seq<Table>>, pageNumber: nat, cropped: seq<Table>) returns (found: seq<TableItem>)
    ensures found == FoundTables(pages, pageNumber, cropped)
  {
    found := Tagged(pageNumber, cropped);
    var stop := NextStop(pageNumber, |pages|);
    var k := pageNumber + 1;
    while k < stop
      invariant pageNumber + 1 <= k
      invariant found + PagesFrom(pages, k, stop) == FoundTables(pages, pageNumber, cropped)
      decreases if k <= stop then stop - k else 0
    {
      found := found + Tagged(k, pages[k]);
      k := k + 1;
    }
  }

  /** The candidates that pass the share rule. */
  method FilterMatching(found: seq<TableItem>) returns (matching: seq<TableItem>)
    ensures matching == Matching(found)
  {
    matching := [];
    var i := 0;
    while i < |found|
      invariant 0 <= i <= |found|
      invariant matching == Matching(found[..i])
    {
      assert found[..i + 1][..i] == found[..i];
      var t := found[i].table;
      if t != [] && ContainsShareRule(t) {
        matching := matching + [found[i]];
      }
      i := i + 1;
    }
    assert found[..i] == found;
  }

  /**
   * The share table of a section: `cropped` are the tables found inside the section's box
   * on its page (the crop is not modelled), `pages[k]` the tables of page k.
   */
  method ExtractShareTables(pages: seq<seq<Table>>, pageNumber: nat, cropped: seq<Table>) returns (r: Option<Table>)
    ensures r == ShareTablesSpec(pages, pageNumber, cropped)
  {
    if pageNumber >= |pages| {
      return None;
    }
    var found := GatherTables(pages, pageNumber, cropped);
    var matching := FilterMatching(found);
    if matching == [] {
      return None;
    }
    r := MergeTables(matching);
  }

  /** A share table, when found, starts with the first matching table and holds only rows of the candidates. */
  lemma ShareTablesProperties(pages: seq<seq<Table>>, pageNumber: nat, cropped: seq<Table>)
    ensures ShareTablesSpec(pages, pageNumber, cropped).Some? ==>
      var m := Matching(FoundTables(pages, pageNumber, cropped));
      m != [] && ContainsShareRule(m[0].table) &&
      |m[0].table| <= |ShareTablesSpec(pages, pageNumber, cropped).value| &&
      ShareTablesSpec(pages, pageNumber, cropped).value[..|m[0].table|] == m[0].table
    ensures pageNumber < |pages| && Matching(FoundTables(pages, pageNumber, cropped)) != [] ==>
      ShareTablesSpec(pages, pageNumber, cropped).Some?
  {
    if pageNumber < |pages| {
      var m := Matching(FoundTables(pages, pageNumber, cropped));
      if m != [] {
        MergeProperties(m);
      }
    }
  }
}
