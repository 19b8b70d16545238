/**
 * The share buy-back announcement parser (sgx_scraper/fetch_sgx_buyback/parser_sgx_buyback.py):
 * the label/value pairs of each announcement section, read from its `dt`/`dd` terms and the rows
 * of its tables, and the buy-back payload assembled from six such sections.
 */
module BuybackParser {

  import opened Wrappers
  import opened Text
  import opened ODicts
  import opened BuybackHelpers
  import ParserHelper
  import Dates

  // ---------------------------------------------------------------- extract_table_data

  /** A table row: the stripped texts of its `td` cells. */
  type Row = seq<string>

  /** The non-empty texts, in their order. */
  function NonEmptyTexts(xs: seq<string>): (r: seq<string>)
    ensures |r| <= |xs|
    ensures forall i :: 0 <= i < |r| ==> r[i] != ""
    ensures forall x :: x in r <==> x in xs && x != ""
    decreases |xs|
  {
    if |xs| == 0 then []
    else
      var init := NonEmptyTexts(xs[..|xs| - 1]);
      assert xs == xs[..|xs| - 1] + [xs[|xs| - 1]];
      if xs[|xs| - 1] != "" then init + [xs[|xs| - 1]] else init
  }

  /** The texts a value holds. */
  function Texts(c: Cell): seq<string>
  {
    match c
    case Single(s) => [s]
    case Several(xs) => xs
  }

  /**
   * One row of `extract_table_data`: the first cell labels the non-empty texts of the others,
   * one text kept as itself and several as a list; a row with fewer than two cells, an empty
   * label or no non-empty text gives nothing.
   */
  function RowEntry(row: Row): (r: Option<(string, Cell)>)
    ensures r.Some? <==> |row| >= 2 && row[0] != "" && NonEmptyTexts(row[1..]) != []
    ensures r.Some? ==> r.value.0 == row[0] && Texts(r.value.1) == NonEmptyTexts(row[1..])
    ensures r.Some? ==> (r.value.1.Several? <==> |NonEmptyTexts(row[1..])| >= 2)
  {
    if |row| < 2 then None
    else
      var values := NonEmptyTexts(row[1..]);
      if row[0] == "" || values == [] then None
      else if |values| == 1 then Some((row[0], Single(values[0])))
      else Some((row[0], Several(values)))
  }

  /** The entries of the rows that give one, in row order. */
  function RowEntries(rows: seq<Row>): (r: seq<(string, Cell)>)
    ensures |r| <= |rows|
    decreases |rows|
  {
    if |rows| == 0 then []
    else
      var init := RowEntries(rows[..|rows| - 1]);
      match RowEntry(rows[|rows| - 1])
      case None => init
      case Some(e) => init + [e]
  }

  /** `extract_table_data`: the entries assigned in row order, so a later row overwrites an earlier one. */
  function TableData(rows: seq<Row>): (r: ODict<Cell>)
  {
    FromPairs(RowEntries(rows))
  }

  /** A label that is not empty, with a value of non-empty texts. */
  predicate GoodEntry(e: (string, Cell))
  {
    e.0 != "" && Texts(e.1) != [] && forall i :: 0 <= i < |Texts(e.1)| ==> Texts(e.1)[i] != ""
  }

  lemma {:induction false} RowEntriesGood(rows: seq<Row>)
    ensures forall i :: 0 <= i < |RowEntries(rows)| ==> GoodEntry(RowEntries(rows)[i])
    decreases |rows|
  {
    if |rows| > 0 {
      RowEntriesGood(rows[..|rows| - 1]);
    }
  }

  /**
   * A table's dict has each label once, reads a label's value from the last row that gives it,
   * and holds only non-empty labels with non-empty texts.
   */
  lemma TableDataFacts(rows: seq<Row>)
    ensures DistinctKeys(TableData(rows))
    ensures forall k :: Get(TableData(rows), k) == LastValue(RowEntries(rows), k)
    ensures forall k :: Get(TableData(rows), k).Some? ==> GoodEntry((k, Get(TableData(rows), k).value))
  {
    var ps := RowEntries(rows);
    FromPairsFacts(ps);
    RowEntriesGood(rows);
    forall k | Get(TableData(rows), k).Some?
      ensures GoodEntry((k, Get(TableData(rows), k).value))
    {
      LastValueIsLast(ps, k);
      var j :| 0 <= j < |ps| && ps[j] == (k, LastValue(ps, k).value) && forall i :: j < i < |ps| ==> ps[i].0 != k;
      assert GoodEntry(ps[j]);
    }
  }

  /** The non-empty texts of a row's cells, collected in a loop as the source does. */
  method CollectTexts(cells: seq<string>) returns (values: seq<string>)
    ensures values == NonEmptyTexts(cells)
  {
    values := [];
    for i := 0 to |cells|
      invariant values == NonEmptyTexts(cells[..i])
    {
      assert cells[..i + 1][..i] == cells[..i];
      if cells[i] != "" {
        values := values + [cells[i]];
      }
    }
    assert cells[..|cells|] == cells;
  }

  /** `extract_table_data`: the dict filled row by row. */
  method ExtractTableData(rows: seq<Row>) returns (d: ODict<Cell>)
    ensures d == TableData(rows)
  {
    d := [];
    for i := 0 to |rows|
      invariant d == FromPairs(RowEntries(rows[..i]))
    {
      var row := rows[i];
      assert rows[..i + 1][..i] == rows[..i];
      if |row| >= 2 {
        var key := row[0];
        var values := CollectTexts(row[1..]);
        if key != "" && values != [] {
          var value := if |values| == 1 then Single(values[0]) else Several(values);
          FromPairsSnoc(RowEntries(rows[..i]), key, value);
          d := Put(d, key, value);
        }
      }
    }
    assert rows[..|rows|] == rows;
  }

  // ---------------------------------------------------------------- extract_section_data

  /** A `dt` label with the text of its `dd`; None when there is no `dd` or the `dd` holds a table. */
  datatype Term = Term(name: string, dd: Option<string>)

  /**
   * A section of the page: Missing when the page has no header with the section's title or no
   * announcement group after it; otherwise the group's terms and all its tables, in page order.
   */
  datatype SectionHtml = Missing | Group(terms: seq<Term>, tables: seq<seq<Row>>)

  /** The terms with a non-empty label and a plain `dd`, each giving its `dd` text (possibly empty). */
  function TermEntries(terms: seq<Term>): (r: seq<(string, Cell)>)
    ensures forall i :: 0 <= i < |r| ==> r[i].0 != "" && r[i].1.Single?
    decreases |terms|
  {
    if |terms| == 0 then []
    else
      var init := TermEntries(terms[..|terms| - 1]);
      var t := terms[|terms| - 1];
      if t.dd.Some? && t.name != "" then init + [(t.name, Single(t.dd.value))] else init
  }

  /** `section_data.update(extract_table_data(table))` for each table in turn. */
  function MergeTables(d: ODict<Cell>, tables: seq<seq<Row>>): (r: ODict<Cell>)
    decreases |tables|
  {
    if |tables| == 0 then d
    else Update(MergeTables(d, tables[..|tables| - 1]), TableData(tables[|tables| - 1]))
  }

  /** The value a label has in the last table that has it. */
  function LastTableValue(tables: seq<seq<Row>>, k: string): (r: Option<Cell>)
    decreases |tables|
  {
    if |tables| == 0 then None
    else
      var here := Get(TableData(tables[|tables| - 1]), k);
      if here.Some? then here else LastTableValue(tables[..|tables| - 1], k)
  }

  /**
   * After the tables are merged the last table that has a label decides its value; a label no
   * table has keeps its value from the terms.
   */
  lemma {:induction false} MergeTablesFacts(d: ODict<Cell>, tables: seq<seq<Row>>)
    requires DistinctKeys(d)
    ensures DistinctKeys(MergeTables(d, tables))
    ensures forall k :: Get(MergeTables(d, tables), k) ==
                        (if LastTableValue(tables, k).Some? then LastTableValue(tables, k) else Get(d, k))
    decreases |tables|
  {
    if |tables| > 0 {
      var init := tables[..|tables| - 1];
      var last := TableData(tables[|tables| - 1]);
      MergeTablesFacts(d, init);
      UpdateFacts(MergeTables(d, init), last);
      FromPairsFacts(RowEntries(tables[|tables| - 1]));
      forall k
        ensures Get(MergeTables(d, tables), k) ==
                (if LastTableValue(tables, k).Some? then LastTableValue(tables, k) else Get(d, k))
      {
        LastValueOfDistinct(last, k);
      }
    }
  }

  const TotalConsideration: string := "Total Consideration"

  /** A label the source renames: one whose stripped lower-case text contains "total consideration". */
  predicate IsConsiderationLabel(k: string)
  {
    Contains(Lower(Strip(k)), "total consideration")
  }

  /** The labels "Total Consideration" followed by anything that does not end in a space are renamed. */
  lemma ConsiderationLabelWith(rest: string)
    requires rest == "" || !IsSpace(rest[|rest| - 1])
    ensures IsConsiderationLabel(TotalConsideration + rest)
  {
    var k := TotalConsideration + rest;
    StripIdentity(k);
    LowerConcat(TotalConsideration, rest);
    LowerTotalConsideration();
    var l := Lower(k);
    assert l[..19] == "total consideration";
    assert OccursAt(l, "total consideration", 0);
  }

  lemma LowerTotalConsideration()
    ensures Lower(TotalConsideration) == "total consideration"
  {
  }

  lemma LowerConcat(a: string, b: string)
    ensures Lower(a + b) == Lower(a) + Lower(b)
  {
  }

  /**
   * The renaming loop as written, for a test `renamed` of labels: for each label of the snapshot
   * taken before the loop, `section_data['Total Consideration'] = section_data.pop(key)` when the
   * label passes the test.
   */
  function RekeyAsWritten(renamed: string -> bool, d: ODict<Cell>, ks: seq<string>): (r: ODict<Cell>)
    decreases |ks|
  {
    if |ks| == 0 then d
    else
      var before := RekeyAsWritten(renamed, d, ks[..|ks| - 1]);
      var k := ks[|ks| - 1];
      if !renamed(k) then before
      else
        match Get(before, k)
        case None => before
        case Some(v) => Put(Pop(before, k), TotalConsideration, v)
  }

  /** The entries whose label is not renamed, in their order. */
  function Unrenamed(renamed: string -> bool, d: ODict<Cell>): (r: ODict<Cell>)
    decreases |d|
  {
    if |d| == 0 then []
    else (if renamed(d[0].0) then [] else [d[0]]) + Unrenamed(renamed, d[1..])
  }

  /** The value of the last entry whose label is renamed. */
  function LastRenamed(renamed: string -> bool, d: ODict<Cell>): (r: Option<Cell>)
    decreases |d|
  {
    if |d| == 0 then None
    else
      var later := LastRenamed(renamed, d[1..]);
      if later.Some? then later
      else if renamed(d[0].0) then Some(d[0].1) else None
  }

  /**
   * The renaming as intended: every renamed label is dropped and "Total Consideration" is
   * appended with the value of the last of them.
   */
  function Rekeyed(renamed: string -> bool, d: ODict<Cell>): (r: ODict<Cell>)
  {
    Unrenamed(renamed, d) + match LastRenamed(renamed, d) case None => [] case Some(v) => [(TotalConsideration, v)]
  }

  /** The entries kept are entries of the dict, none of them renamed. */
  lemma {:induction false} UnrenamedFacts(renamed: string -> bool, d: ODict<Cell>)
    ensures forall i :: 0 <= i < |Unrenamed(renamed, d)| ==>
      Unrenamed(renamed, d)[i] in d && !renamed(Unrenamed(renamed, d)[i].0)
    decreases |d|
  {
    if |d| > 0 {
      UnrenamedFacts(renamed, d[1..]);
    }
  }

  /** The value kept is that of a renamed entry, the last one; there is none only when no label is renamed. */
  lemma {:induction false} LastRenamedFacts(renamed: string -> bool, d: ODict<Cell>)
    ensures LastRenamed(renamed, d).Some? ==>
      exists i :: 0 <= i < |d| && d[i].1 == LastRenamed(renamed, d).value && renamed(d[i].0) &&
                  (forall j :: i < j < |d| ==> !renamed(d[j].0))
    ensures LastRenamed(renamed, d).None? ==> forall i :: 0 <= i < |d| ==> !renamed(d[i].0)
    decreases |d|
  {
    if |d| > 0 {
      LastRenamedFacts(renamed, d[1..]);
      if LastRenamed(renamed, d[1..]).Some? {
        var i :| 0 <= i < |d[1..]| && d[1..][i].1 == LastRenamed(renamed, d[1..]).value && renamed(d[1..][i].0) &&
          forall j :: i < j < |d[1..]| ==> !renamed(d[1..][j].0);
        assert d[i + 1] == d[1..][i];
        assert forall j :: i + 1 < j < |d| ==> d[j] == d[1..][j - 1];
      }
    }
  }

  lemma {:induction false} UnrenamedGet(renamed: string -> bool, d: ODict<Cell>, k: string)
    requires !renamed(k)
    ensures Get(Unrenamed(renamed, d), k) == Get(d, k)
    decreases |d|
  {
    if |d| > 0 {
      var rest := Unrenamed(renamed, d[1..]);
      UnrenamedGet(renamed, d[1..], k);
      GetCons(d[0], d[1..], k);
      assert [d[0]] + d[1..] == d;
      if renamed(d[0].0) {
        assert Unrenamed(renamed, d) == rest;
      } else {
        assert Unrenamed(renamed, d) == [d[0]] + rest;
        GetCons(d[0], rest, k);
      }
    }
  }

  lemma {:induction false} UnrenamedDistinct(renamed: string -> bool, d: ODict<Cell>)
    requires DistinctKeys(d)
    ensures DistinctKeys(Unrenamed(renamed, d))
    decreases |d|
  {
    if |d| > 0 {
      assert DistinctKeys(d[1..]);
      UnrenamedDistinct(renamed, d[1..]);
      UnrenamedFacts(renamed, d[1..]);
      var rest := Unrenamed(renamed, d[1..]);
      forall i | 0 <= i < |rest|
        ensures rest[i].0 != d[0].0
      {
        var j :| 0 <= j < |d[1..]| && d[1..][j] == rest[i];
        assert d[j + 1] == rest[i];
      }
    }
  }

  /**
   * The intended renaming, for a test that renames "Total Consideration" itself: that label
   * reads the value of the last renamed label, other renamed labels are gone, every other label
   * keeps its value, and labels stay distinct.
   */
  lemma RekeyedFacts(renamed: string -> bool, d: ODict<Cell>)
    requires DistinctKeys(d) && renamed(TotalConsideration)
    ensures DistinctKeys(Rekeyed(renamed, d))
    ensures Get(Rekeyed(renamed, d), TotalConsideration) == LastRenamed(renamed, d)
    ensures forall k :: !renamed(k) ==> Get(Rekeyed(renamed, d), k) == Get(d, k)
    ensures forall k :: renamed(k) && k != TotalConsideration ==> Get(Rekeyed(renamed, d), k).None?
  {
    var u := Unrenamed(renamed, d);
    var tail: ODict<Cell> := match LastRenamed(renamed, d) case None => [] case Some(v) => [(TotalConsideration, v)];
    UnrenamedDistinct(renamed, d);
    UnrenamedFacts(renamed, d);
    FindAfter(u, tail, TotalConsideration);
    forall k | !renamed(k)
      ensures Get(Rekeyed(renamed, d), k) == Get(d, k)
    {
      UnrenamedGet(renamed, d, k);
      GetBefore(u, tail, k);
    }
    forall k | renamed(k) && k != TotalConsideration
      ensures Get(Rekeyed(renamed, d), k).None?
    {
      FindAfter(u, tail, k);
    }
  }

  /**
   * As written, a renamed label seen before "Total Consideration" overwrites that label's value
   * in place, and popping "Total Consideration" afterwards carries the overwritten value on: the
   * value under the last renamed label is lost.
   */
  lemma RekeyAsWrittenLosesLastValue(renamed: string -> bool, a: string, v1: Cell, v2: Cell)
    requires renamed(a) && renamed(TotalConsideration) && a != TotalConsideration && v1 != v2
    ensures var d := [(a, v1), (TotalConsideration, v2)];
      Get(RekeyAsWritten(renamed, d, Keys(d)), TotalConsideration) == Some(v1) &&
      Get(Rekeyed(renamed, d), TotalConsideration) == Some(v2)
  {
    var d := [(a, v1), (TotalConsideration, v2)];
    var ks := Keys(d);
    assert ks == [a, TotalConsideration] by {
      assert |ks| == 2 && ks[0] == a && ks[1] == TotalConsideration;
    }
    assert ks[..1] == [a] && ks[..1][..0] == [];
    assert Find(d, a) == Some(0);
    assert Pop(d, a) == [(TotalConsideration, v2)];
    var step1 := Put(Pop(d, a), TotalConsideration, v1);
    assert step1 == [(TotalConsideration, v1)];
    assert RekeyAsWritten(renamed, d, ks[..1]) == step1;
    assert RekeyAsWritten(renamed, d, ks) == [(TotalConsideration, v1)];
    assert d[1..] == [(TotalConsideration, v2)];
    assert LastRenamed(renamed, d[1..]) == Some(v2) by {
      assert d[1..][1..] == [];
    }
    RekeyedFacts(renamed, d);
  }

  /**
   * The announcement's own labels show it: "Total Consideration (S$)" followed by
   * "Total Consideration" leaves the first label's value under "Total Consideration".
   */
  lemma CurrencyLabelShowsLoss(v1: Cell, v2: Cell)
    requires v1 != v2
    ensures var d := [(TotalConsideration + " (S$)", v1), (TotalConsideration, v2)];
      Get(RekeyAsWritten(IsConsiderationLabel, d, Keys(d)), TotalConsideration) == Some(v1) &&
      Get(Rekeyed(IsConsiderationLabel, d), TotalConsideration) == Some(v2)
  {
    ConsiderationLabelWith(" (S$)");
    ConsiderationLabelWith("");
    assert TotalConsideration + "" == TotalConsideration;
    RekeyAsWrittenLosesLastValue(IsConsiderationLabel, TotalConsideration + " (S$)", v1, v2);
  }

  /** `extract_section_data`, with the renaming as intended. */
  function SectionDataSpec(html: SectionHtml): (r: ODict<Cell>)
  {
    match html
    case Missing => []
    case Group(terms, tables) => Rekeyed(IsConsiderationLabel, MergeTables(FromPairs(TermEntries(terms)), tables))
  }

  /** The sections of one announcement: the labels and values of its terms and tables. */
  lemma SectionDataFacts(html: SectionHtml)
    ensures html.Missing? ==> SectionDataSpec(html) == []
    ensures DistinctKeys(SectionDataSpec(html))
    ensures html.Group? ==> forall k :: !IsConsiderationLabel(k) ==>
      (Get(SectionDataSpec(html), k) ==
       if LastTableValue(html.tables, k).Some? then LastTableValue(html.tables, k) else LastValue(TermEntries(html.terms), k))
    ensures html.Group? ==>
      Get(SectionDataSpec(html), TotalConsideration) ==
        LastRenamed(IsConsiderationLabel, MergeTables(FromPairs(TermEntries(html.terms)), html.tables))
  {
    if html.Group? {
      var start := FromPairs(TermEntries(html.terms));
      FromPairsFacts(TermEntries(html.terms));
      MergeTablesFacts(start, html.tables);
      ConsiderationLabelWith("");
      assert TotalConsideration + "" == TotalConsideration;
      RekeyedFacts(IsConsiderationLabel, MergeTables(start, html.tables));
    }
  }

  lemma {:induction false} UnrenamedSnoc(renamed: string -> bool, d: ODict<Cell>, e: (string, Cell))
    ensures Unrenamed(renamed, d + [e]) == Unrenamed(renamed, d) + (if renamed(e.0) then [] else [e])
    decreases |d|
  {
    if |d| == 0 {
      assert [] + [e] == [e];
      assert [e][1..] == [];
    } else {
      var h := if renamed(d[0].0) then [] else [d[0]];
      assert (d + [e])[0] == d[0];
      assert (d + [e])[1..] == d[1..] + [e];
      assert Unrenamed(renamed, d + [e]) == h + Unrenamed(renamed, d[1..] + [e]);
      UnrenamedSnoc(renamed, d[1..], e);
    }
  }

  lemma {:induction false} LastRenamedSnoc(renamed: string -> bool, d: ODict<Cell>, e: (string, Cell))
    ensures LastRenamed(renamed, d + [e]) == if renamed(e.0) then Some(e.1) else LastRenamed(renamed, d)
    decreases |d|
  {
    if |d| == 0 {
      assert [] + [e] == [e];
      assert [e][1..] == [];
    } else {
      assert (d + [e])[1..] == d[1..] + [e];
      LastRenamedSnoc(renamed, d[1..], e);
    }
  }

  /**
   * The renaming loop, as intended, for the test `renamed` of labels: every renamed label is
   * popped and its value remembered, and the last value remembered is assigned to
   * "Total Consideration" once the loop is over.
   */
  method RenameLabels(renamed: string -> bool, d0: ODict<Cell>) returns (d: ODict<Cell>)
    requires DistinctKeys(d0) && renamed(TotalConsideration)
    ensures d == Rekeyed(renamed, d0)
  {
    var moved;
    d, moved := PopRenamed(renamed, d0);
    if moved.Some? {
      AppendTotal(renamed, d0, moved.value);
      d := Put(d, TotalConsideration, moved.value);
    }
  }

  /** The loop itself: the renamed labels popped in key order, the last popped value kept. */
  method PopRenamed(renamed: string -> bool, d0: ODict<Cell>) returns (d: ODict<Cell>, moved: Option<Cell>)
    requires DistinctKeys(d0)
    ensures d == Unrenamed(renamed, d0) && moved == LastRenamed(renamed, d0)
  {
    var keys := Keys(d0);
    moved := None;
    d := d0;
    var i := 0;
    while i < |keys|
      invariant i <= |d0| == |keys|
      invariant d == Unrenamed(renamed, d0[..i]) + d0[i..]
      invariant moved == LastRenamed(renamed, d0[..i])
    {
      var key := keys[i];
      RenameStep(renamed, d0, i);
      if renamed(key) {
        moved := Get(d, key);
        d := Pop(d, key);
      }
      i := i + 1;
    }
    assert d0[..i] == d0 && d0[i..] == [];
  }

  /** No entry left by the renaming is "Total Consideration", so assigning it appends it. */
  lemma AppendTotal(renamed: string -> bool, d0: ODict<Cell>, v: Cell)
    requires renamed(TotalConsideration)
    ensures Put(Unrenamed(renamed, d0), TotalConsideration, v) == Unrenamed(renamed, d0) + [(TotalConsideration, v)]
  {
    var u := Unrenamed(renamed, d0);
    UnrenamedFacts(renamed, d0);
    assert forall j :: 0 <= j < |u| ==> u[j].0 != TotalConsideration;
    assert Find(u, TotalConsideration).None?;
  }

  /** One turn of the renaming loop, on the entries before `i` done and those from `i` on untouched. */
  lemma RenameStep(renamed: string -> bool, d0: ODict<Cell>, i: nat)
    requires DistinctKeys(d0) && i < |d0|
    ensures var d := Unrenamed(renamed, d0[..i]) + d0[i..];
      var key := d0[i].0;
      if renamed(key) then
        Unrenamed(renamed, d0[..i + 1]) + d0[i + 1..] == Pop(d, key) && LastRenamed(renamed, d0[..i + 1]) == Get(d, key)
      else
        Unrenamed(renamed, d0[..i + 1]) + d0[i + 1..] == d && LastRenamed(renamed, d0[..i + 1]) == LastRenamed(renamed, d0[..i])
  {
    var u := Unrenamed(renamed, d0[..i]);
    var key := d0[i].0;
    assert d0[..i + 1] == d0[..i] + [d0[i]];
    UnrenamedSnoc(renamed, d0[..i], d0[i]);
    LastRenamedSnoc(renamed, d0[..i], d0[i]);
    if renamed(key) {
      PrefixLacksKey(renamed, d0, i);
      assert d0[i..][0] == d0[i] && d0[i..][1..] == d0[i + 1..];
      PopFirstAfter(u, d0[i..]);
    } else {
      assert u + d0[i..] == (u + [d0[i]]) + d0[i + 1..];
    }
  }

  /** The entries kept from before `i` do not carry the label at `i`, as the labels are distinct. */
  lemma PrefixLacksKey(renamed: string -> bool, d0: ODict<Cell>, i: nat)
    requires DistinctKeys(d0) && i < |d0|
    ensures forall j :: 0 <= j < |Unrenamed(renamed, d0[..i])| ==> Unrenamed(renamed, d0[..i])[j].0 != d0[i].0
  {
    var u := Unrenamed(renamed, d0[..i]);
    UnrenamedFacts(renamed, d0[..i]);
    forall j | 0 <= j < |u|
      ensures u[j].0 != d0[i].0
    {
      var m :| 0 <= m < |d0[..i]| && d0[..i][m] == u[j];
      assert d0[m] == u[j];
    }
  }

  /** Popping the first key of the entries that follow a prefix without it. */
  lemma PopFirstAfter(u: ODict<Cell>, rest: ODict<Cell>)
    requires rest != [] && forall j :: 0 <= j < |u| ==> u[j].0 != rest[0].0
    ensures Get(u + rest, rest[0].0) == Some(rest[0].1)
    ensures Pop(u + rest, rest[0].0) == u + rest[1..]
  {
    FindAfter(u, rest, rest[0].0);
    var d := u + rest;
    assert d[..|u|] == u;
    assert d[|u| + 1..] == rest[1..];
  }

  /** `extract_section_data`: the terms assigned, then each table merged, then the renaming. */
  method ExtractSectionData(html: SectionHtml) returns (d: ODict<Cell>)
    ensures d == SectionDataSpec(html)
  {
    if html.Missing? {
      return [];
    }
    var terms, tables := html.terms, html.tables;
    d := [];
    for i := 0 to |terms|
      invariant d == FromPairs(TermEntries(terms[..i]))
    {
      assert terms[..i + 1][..i] == terms[..i];
      var t := terms[i];
      if t.dd.Some? && t.name != "" {
        FromPairsSnoc(TermEntries(terms[..i]), t.name, Single(t.dd.value));
        d := Put(d, t.name, Single(t.dd.value));
      }
    }
    assert terms[..|terms|] == terms;
    FromPairsFacts(TermEntries(terms));
    for i := 0 to |tables|
      invariant d == MergeTables(FromPairs(TermEntries(terms)), tables[..i])
    {
      assert tables[..i + 1][..i] == tables[..i];
      var data := ExtractTableData(tables[i]);
      d := Update(d, data);
    }
    assert tables[..|tables|] == tables;
    MergeTablesFacts(FromPairs(TermEntries(terms)), tables);
    ConsiderationLabelWith("");
    assert TotalConsideration + "" == TotalConsideration;
    d := RenameLabels(IsConsiderationLabel, d);
  }

  // ---------------------------------------------------------------- the fields of an announcement

  /** A value passed where a text is expected: a list makes the callee raise, and that reads as nothing. */
  function CellText(c: Option<Cell>): (r: Option<string>)
    ensures r.Some? <==> c.Some? && c.value.Single?
    ensures r.Some? ==> r.value == c.value.s
  {
    match c
    case Some(Single(s)) => Some(s)
    case _ => None
  }

  /** `safe_convert_float` of a raw section value. */
  function CellFloat(c: Option<Cell>): (r: Option<real>)
    ensures (c.None? || c.value.Several?) ==> r.None?
  {
    BuyFloat(CellText(c))
  }

  const SecuritiesLabel: string := "Securities"
  const IssuerLabel: string := "Issuer/ Manager"

  /**
   * `resolve_symbol`: the symbol at the end of the securities line, or else the symbol the
   * company-name matcher finds for the issuer's value.
   */
  function ResolveSymbol(matchSymbol: Option<Cell> -> Option<string>, issuer: ODict<Cell>): (r: Option<string>)
    ensures ParserHelper.ExtractSymbol(CellText(Get(issuer, SecuritiesLabel))).Some? ==>
      r == ParserHelper.ExtractSymbol(CellText(Get(issuer, SecuritiesLabel)))
    ensures ParserHelper.ExtractSymbol(CellText(Get(issuer, SecuritiesLabel))).None? ==>
      r == matchSymbol(Get(issuer, IssuerLabel))
  {
    var symbol := ParserHelper.ExtractSymbol(CellText(Get(issuer, SecuritiesLabel)));
    if symbol.Some? then symbol else matchSymbol(Get(issuer, IssuerLabel))
  }

  /**
   * A securities line "name - symbol" or "name - security - symbol" of dash-free parts gives its
   * stripped last part, whatever the matcher would say.
   */
  lemma SymbolFromSecuritiesLine(m1: Option<Cell> -> Option<string>, m2: Option<Cell> -> Option<string>,
                                 issuer: ODict<Cell>, parts: seq<string>)
    requires 2 <= |parts| <= 3 && Strip(parts[|parts| - 1]) != ""
    requires forall k :: 0 <= k < |parts| ==> ParserHelper.DashFree(parts[k])
    requires Get(issuer, SecuritiesLabel) == Some(Single(JoinWith(ParserHelper.SymbolSeparator, parts)))
    ensures ResolveSymbol(m1, issuer) == ResolveSymbol(m2, issuer) == Some(Strip(parts[|parts| - 1]))
  {
    ParserHelper.SymbolIsLastPart(parts);
  }

  datatype BuybackType = OnMarket | OffMarket

  const MarketLabel: string := "Purchase made by way of market acquisition"
  const OffMarketLabel: string := "Purchase made by way of off-market acquisition on equal access scheme"

  /** `get_buyback_type`: on market when Section A says "Yes" and Section B "No", off market for the reverse. */
  function GetBuybackType(a: ODict<Cell>, b: ODict<Cell>): (r: Option<BuybackType>)
    ensures r == Some(OnMarket) <==> Get(a, MarketLabel) == Some(Single("Yes")) && Get(b, OffMarketLabel) == Some(Single("No"))
    ensures r == Some(OffMarket) <==> Get(a, MarketLabel) == Some(Single("No")) && Get(b, OffMarketLabel) == Some(Single("Yes"))
  {
    var onMarket := Get(a, MarketLabel);
    var offMarket := Get(b, OffMarketLabel);
    if onMarket == Some(Single("Yes")) && offMarket == Some(Single("No")) then Some(OnMarket)
    else if onMarket == Some(Single("No")) && offMarket == Some(Single("Yes")) then Some(OffMarket)
    else None
  }

  /** Both flags are needed: a missing flag, a listed flag or matching answers give no type. */
  lemma BuybackTypeNeedsBothFlags(a: ODict<Cell>, b: ODict<Cell>)
    ensures Get(a, MarketLabel).None? || Get(b, OffMarketLabel).None? ==> GetBuybackType(a, b).None?
    ensures Get(a, MarketLabel) == Get(b, OffMarketLabel) ==> GetBuybackType(a, b).None?
    ensures (Get(a, MarketLabel).Some? && Get(a, MarketLabel).value.Several?) ==> GetBuybackType(a, b).None?
  {
  }

  const PurchaseDateLabel: string := "Date of Purchase"
  const MandateStartLabel: string := "Start date for mandate of daily share buy-back"

  /** `parse_date`, purchase half: Section A's date of purchase, else Section B's, converted. */
  function PurchaseDate(a: ODict<Cell>, b: ODict<Cell>): (r: Option<string>)
    ensures ExtractFallback(PurchaseDateLabel, Some(a), Some(b)).None? ==> r.None?
  {
    ParserHelper.SafeConvertDatetime(ExtractFallback(PurchaseDateLabel, Some(a), Some(b)))
  }

  /** `parse_date`, start half: the additional details' start of the mandate, converted. */
  function MandateStart(additional: ODict<Cell>): (r: Option<string>)
    ensures CellText(Get(additional, MandateStartLabel)).None? ==> r.None?
  {
    ParserHelper.SafeConvertDatetime(CellText(Get(additional, MandateStartLabel)))
  }

  const PaidLabel: string := "Price Paid per share"
  const PayableLabel: string := "Price Paid or Payable per Share"
  const HighestLabel: string := "Highest Price per share"
  const LowestLabel: string := "Lowest Price per share"

  /** `parse_prices`: the paid price, falling back to the paid-or-payable one, with the highest and lowest prices. */
  function ParsePrices(a: ODict<Cell>, b: ODict<Cell>): (r: PriceFields)
  {
    var paid := ExtractFallback(PaidLabel, Some(a), Some(b));
    var paid' := if !TruthyString(paid) then ExtractFallback(PayableLabel, Some(a), Some(b)) else paid;
    BuildPricePerShare(paid', ExtractFallback(HighestLabel, Some(a), Some(b)), ExtractFallback(LowestLabel, Some(a), Some(b)))
  }

  /**
   * The paid-or-payable price is read only when neither section gives a paid price; a price
   * range needs both bounds and neither paid price.
   */
  lemma ParsePricesFacts(a: ODict<Cell>, b: ODict<Cell>)
    ensures var paid := ExtractFallback(PaidLabel, Some(a), Some(b));
      var payable := ExtractFallback(PayableLabel, Some(a), Some(b));
      var highest := ExtractFallback(HighestLabel, Some(a), Some(b));
      var lowest := ExtractFallback(LowestLabel, Some(a), Some(b));
      var r := ParsePrices(a, b);
      (r.PaidPrice? <==> (paid.Some? || payable.Some?) && highest.None? && lowest.None?) &&
      (r.PaidPrice? && paid.Some? ==> r.paid == BuyFloat(paid)) &&
      (r.PaidPrice? && paid.None? ==> r.paid == BuyFloat(payable)) &&
      (r.PriceRange? <==> paid.None? && payable.None? && highest.Some? && lowest.Some?)
  {
  }

  /** The counts and amounts `parse_total_value` reads. */
  datatype Totals = Totals(purchased: Option<real>, cumulative: Option<real>, consideration: Option<real>,
                           treasuryAfter: Option<real>, mandate: Option<real>)

  const MandateLabel: string := "Maximum number of shares authorised for purchase"
  const PurchasedLabel: string := "Total Number of shares purchased"
  const CumulativeLabel: string := "Total"
  const TreasuryLabel: string := "Number of treasury shares held after purchase"

  /**
   * `parse_total_value`: the mandate from Section A alone, the shares purchased and the
   * consideration from Section A or else B, the cumulative count from the first value of
   * Section C's total row, and the treasury shares from Section D.
   */
  function TotalValues(a: ODict<Cell>, b: ODict<Cell>, c: ODict<Cell>, d: ODict<Cell>): (r: Totals)
    ensures r.mandate == CellFloat(Get(a, MandateLabel))
    ensures r.treasuryAfter == CellFloat(Get(d, TreasuryLabel))
    ensures Get(c, CumulativeLabel) == Some(Several([])) ==> r.cumulative.None?
    ensures forall x, xs :: Get(c, CumulativeLabel) == Some(Several([x] + xs)) ==> r.cumulative == BuyFloat(Some(x))
    ensures TruthyString(SectionValue(PurchasedLabel, Some(a))) ==> r.purchased == BuyFloat(SectionValue(PurchasedLabel, Some(a)))
  {
    Totals(BuyFloat(ExtractFallback(PurchasedLabel, Some(a), Some(b))),
           BuyFloat(ExtractValue(Get(c, CumulativeLabel))),
           BuyFloat(ExtractFallback(TotalConsideration, Some(a), Some(b))),
           CellFloat(Get(d, TreasuryLabel)),
           CellFloat(Get(a, MandateLabel)))
  }

  /** The five mandate fields. */
  datatype Mandate = Mandate(total: Option<real>, cumulative: Option<real>, remaining: Option<real>,
                             start: string, end: string)

  /** The buy-back payload. */
  datatype Buyback = Buyback(symbol: Option<string>, purchaseDate: Option<string>, kind: Option<BuybackType>,
                             pricePerShare: PriceFields, totalValue: Option<real>, totalSharesPurchased: Option<real>,
                             treasuryAfter: Option<real>, mandate: Mandate)

  /**
   * The end of the mandate: the start read back with `%Y-%m-%d`, one calendar year added and
   * rendered again; None where the source raises (no start, no such date, year 9999).
   */
  function MandateEnd(start: Option<string>): (r: Option<string>)
    ensures start.None? ==> r.None?
  {
    if start.None? then None
    else
      match Dates.ParseYearDashMonthDashDay(start.value)
      case None => None
      case Some(day) =>
        match Dates.AddOneYear(day)
        case None => None
        case Some(e) => Some(Dates.FormatIso(e))
  }

  /**
   * A start rendered from a date of a four-digit year ends a calendar year later on the same
   * month and day, 29 February ending on 28 February; a start in 9999 has no end.
   */
  lemma MandateEndOfDate(day: Dates.Date)
    requires Dates.ValidDate(day) && day.year >= 1000
    ensures day.year == 9999 ==> MandateEnd(Some(Dates.FormatIso(day))).None?
    ensures day.year < 9999 ==>
      exists e :: Dates.ValidDate(e) && MandateEnd(Some(Dates.FormatIso(day))) == Some(Dates.FormatIso(e)) &&
                  e.year == day.year + 1 && e.month == day.month &&
                  (e.day == day.day || (day.month == 2 && day.day == 29 && e.day == 28))
  {
    Dates.ParseFormatIso(day);
    if day.year < 9999 {
      var e := Dates.AddOneYear(day).value;
      Dates.AddOneYearKeepsDay(day);
      assert MandateEnd(Some(Dates.FormatIso(day))) == Some(Dates.FormatIso(e));
    }
  }

  /**
   * `extract_all_fields` on the six sections: the payload, or None when the mandate's end cannot
   * be computed.
   */
  function BuybackFields(matchSymbol: Option<Cell> -> Option<string>, issuer: ODict<Cell>, additional: ODict<Cell>,
                         a: ODict<Cell>, b: ODict<Cell>, c: ODict<Cell>, d: ODict<Cell>): (r: Option<Buyback>)
    ensures r.Some? <==> MandateEnd(MandateStart(additional)).Some?
    ensures r.Some? ==> r.value.mandate.start == MandateStart(additional).value
    ensures r.Some? ==> r.value.mandate.remaining == MandateRemaining(r.value.mandate.total, r.value.mandate.cumulative)
    ensures r.Some? ==> r.value.mandate.total == CellFloat(Get(a, MandateLabel))
  {
    var symbol := ResolveSymbol(matchSymbol, issuer);
    var kind := GetBuybackType(a, b);
    var purchase := PurchaseDate(a, b);
    var start := MandateStart(additional);
    var prices := ParsePrices(a, b);
    var t := TotalValues(a, b, c, d);
    var remaining := MandateRemaining(t.mandate, t.cumulative);
    match MandateEnd(start)
    case None => None
    case Some(end) =>
      Some(Buyback(symbol, purchase, kind, prices, t.consideration, t.purchased, t.treasuryAfter,
                   Mandate(t.mandate, t.cumulative, remaining, start.value, end)))
  }

  /** A mandate start missing from the additional details, or not a date, loses the whole announcement. */
  lemma MissingStartLosesAnnouncement(matchSymbol: Option<Cell> -> Option<string>, issuer: ODict<Cell>,
                                      additional: ODict<Cell>, a: ODict<Cell>, b: ODict<Cell>, c: ODict<Cell>, d: ODict<Cell>)
    requires Get(additional, MandateStartLabel).None? || ParserHelper.SafeConvertDatetime(CellText(Get(additional, MandateStartLabel))).None?
    ensures BuybackFields(matchSymbol, issuer, additional, a, b, c, d).None?
  {
  }

  /** The page as the six section titles find it. */
  type Page = string -> SectionHtml

  /** `extract_all_fields` on a page. */
  function ExtractAllFieldsSpec(matchSymbol: Option<Cell> -> Option<string>, page: Page): (r: Option<Buyback>)
  {
    BuybackFields(matchSymbol, SectionDataSpec(page("Issuer & Securities")), SectionDataSpec(page("Additional Details")),
                  SectionDataSpec(page("Section A")), SectionDataSpec(page("Section B")),
                  SectionDataSpec(page("Section C")), SectionDataSpec(page("Section D")))
  }

  /** `extract_all_fields`: each section read, then the payload assembled. */
  method ExtractAllFields(matchSymbol: Option<Cell> -> Option<string>, page: Page) returns (r: Option<Buyback>)
    ensures r == ExtractAllFieldsSpec(matchSymbol, page)
  {
    var issuer := ExtractSectionData(page("Issuer & Securities"));
    var additional := ExtractSectionData(page("Additional Details"));
    var a := ExtractSectionData(page("Section A"));
    var b := ExtractSectionData(page("Section B"));
    var c := ExtractSectionData(page("Section C"));
    var d := ExtractSectionData(page("Section D"));
    r := BuybackFields(matchSymbol, issuer, additional, a, b, c, d);
  }
}
