/**
 * `parse_constraint_report_html`: the table of a Special:ConstraintReport page.
 * `ConstraintTableParser` is driven by the start-tag, end-tag and text events of
 * the HTML tokenizer; it keeps a handful of flags (inside the sortable table, its
 * body, a row, a cell, a property link) and collects rows of cells. Each cell is
 * its text chunks and the property number found in its links. Rows of four or
 * more cells then become constraint-violation records.
 */
module ConstraintTable {
  import opened Text
  import opened Wrappers
  import Patterns

  /** A tokenizer event. A start tag carries the values of its `class` and `href`
      attributes, `None` when the tag has no such attribute. */
  datatype Event =
    | StartTag(tag: string, cls: Option<string>, href: Option<string>)
    | EndTag(tag: string)
    | Data(text: string)

  datatype Cell = Cell(text: string, pNumber: Option<string>)

  /** The parser's fields. `rowStored` records that `current_row` is the very list last
      appended to `rows`, so that a cell closed after its row still lands in that row. */
  datatype TableState = TableState(
    inTable: bool, inTbody: bool, inRow: bool, inCell: bool, inPropertyLink: bool,
    currentRow: seq<Cell>, cellContent: seq<string>, rows: seq<seq<Cell>>,
    currentP: Option<string>, rowStored: bool)

  const Initial := TableState(false, false, false, false, false, [], [], [], None, false)

  /** `'wikitable sortable' in attrs['class']` */
  predicate IsSortableTable(tag: string, cls: Option<string>) {
    tag == "table" && cls.Some? && Contains(cls.value, "wikitable sortable")
  }

  /** The property link of an `<a>` inside a cell: `#(P\d+)` always wins; `Property:(P\d+)`
      only fills a P number not yet set. */
  function LinkStep(st: TableState, href: string): TableState {
    st.(currentP := LinkP(st.currentP, href), inPropertyLink := LinkFlag(st.inPropertyLink, href))
  }

  /** The P number after the link. */
  function LinkP(current: Option<string>, href: string): Option<string> {
    if Contains(href, "#P") then
      match Patterns.SearchGroup(href, Patterns.HashProperty)
      case Some(p) => Some(p)
      case None => current
    else if Contains(href, "/wiki/Property:P") then
      match Patterns.SearchGroup(href, Patterns.PropertyPath)
      case Some(p) => if current.None? || current.value == "" then Some(p) else current
      case None => current
    else current
  }

  /** `in_property_link` after the link: set by a `#P…` link only. */
  function LinkFlag(flag: bool, href: string): bool {
    if Contains(href, "#P") && Patterns.SearchGroup(href, Patterns.HashProperty).Some? then true else flag
  }

  function StartTagStep(st: TableState, tag: string, cls: Option<string>, href: Option<string>): TableState {
    if IsSortableTable(tag, cls) then st.(inTable := true)
    else if st.inTable && tag == "tbody" then st.(inTbody := true)
    else if st.inTbody && tag == "tr" then st.(inRow := true, currentRow := [], rowStored := false)
    else if st.inRow && tag == "td" then st.(inCell := true, cellContent := [], currentP := None)
    else if st.inCell && tag == "a" then (if href.Some? then LinkStep(st, href.value) else st)
    else st
  }

  /** The cell that closing `td` appends: the chunks joined by spaces, stripped. */
  function CellOf(st: TableState): Cell {
    Cell(Strip(Join(st.cellContent, " ")), st.currentP)
  }

  function EndTagStep(st: TableState, tag: string): TableState {
    if tag == "table" && st.inTable then st.(inTable := false, inTbody := false)
    else if tag == "tbody" && st.inTbody then st.(inTbody := false)
    else if tag == "tr" && st.inRow then
      if st.currentRow != [] then st.(inRow := false, rows := st.rows + [st.currentRow], rowStored := true)
      else st.(inRow := false)
    else if tag == "td" && st.inCell then
      var row := st.currentRow + [CellOf(st)];
      var rows := if st.rowStored && st.rows != [] then st.rows[..|st.rows| - 1] + [row] else st.rows;
      st.(inCell := false, currentRow := row, rows := rows)
    else if tag == "a" && st.inPropertyLink then st.(inPropertyLink := false)
    else st
  }

  function DataStep(st: TableState, data: string): TableState {
    if st.inCell && Strip(data) != [] then st.(cellContent := st.cellContent + [Strip(data)]) else st
  }

  function Step(st: TableState, e: Event): TableState {
    match e
    case StartTag(tag, cls, href) => StartTagStep(st, tag, cls, href)
    case EndTag(tag) => EndTagStep(st, tag)
    case Data(text) => DataStep(st, text)
  }

  function Run(st: TableState, es: seq<Event>): TableState
    decreases |es|
  {
    if es == [] then st else Run(Step(st, es[0]), es[1..])
  }

  class ConstraintTableParser {
    var inTable: bool
    var inTbody: bool
    var inRow: bool
    var inCell: bool
    var inPropertyLink: bool
    var currentRow: seq<Cell>
    var cellContent: seq<string>
    var rows: seq<seq<Cell>>
    var currentP: Option<string>
    var rowStored: bool

    function State(): TableState
      reads this
    {
      TableState(inTable, inTbody, inRow, inCell, inPropertyLink, currentRow, cellContent, rows, currentP, rowStored)
    }

    constructor ()
      ensures State() == Initial
    {
      inTable, inTbody, inRow, inCell, inPropertyLink := false, false, false, false, false;
      currentRow, cellContent, rows := [], [], [];
      currentP, rowStored := None, false;
    }

    method HandleStartTag(tag: string, cls: Option<string>, href: Option<string>)
      modifies this
      ensures State() == StartTagStep(old(State()), tag, cls, href)
    {
      if IsSortableTable(tag, cls) {
        inTable := true;
      } else if inTable && tag == "tbody" {
        inTbody := true;
      } else if inTbody && tag == "tr" {
        inRow := true;
        currentRow := [];
        rowStored := false;
      } else if inRow && tag == "td" {
        inCell := true;
        cellContent := [];
        currentP := None;
      } else if inCell && tag == "a" {
        if href.Some? {
          HandleLink(href.value);
        }
      }
    }

    /** The `href` of an `<a>` inside a cell. */
    method HandleLink(h: string)
      modifies this
      ensures State() == LinkStep(old(State()), h)
    {
      if Contains(h, "#P") {
        var m := Patterns.SearchGroup(h, Patterns.HashProperty);
        if m.Some? {
          currentP := m;
          inPropertyLink := true;
        }
      } else if Contains(h, "/wiki/Property:P") {
        var m := Patterns.SearchGroup(h, Patterns.PropertyPath);
        if m.Some? && (currentP.None? || currentP.value == "") {
          currentP := m;
        }
      }
    }

    method HandleEndTag(tag: string)
      modifies this
      ensures State() == EndTagStep(old(State()), tag)
    {
      if tag == "table" && inTable {
        inTable := false;
        inTbody := false;
      } else if tag == "tbody" && inTbody {
        inTbody := false;
      } else if tag == "tr" && inRow {
        inRow := false;
        if currentRow != [] {
          rows := rows + [currentRow];
          rowStored := true;
        }
      } else if tag == "td" && inCell {
        CloseCell();
      } else if tag == "a" && inPropertyLink {
        inPropertyLink := false;
      }
    }

    /** Closing `td`: the joined cell is appended to the current row, and to the stored copy
        of that row. */
    method CloseCell()
      requires inCell
      modifies this
      ensures State() == EndTagStep(old(State()), "td")
    {
      inCell := false;
      var cellText := Strip(Join(cellContent, " "));
      currentRow := currentRow + [Cell(cellText, currentP)];
      if rowStored && rows != [] {
        rows := rows[..|rows| - 1] + [currentRow];
      }
    }

    method HandleData(data: string)
      modifies this
      ensures State() == DataStep(old(State()), data)
    {
      if inCell {
        var cleaned := Strip(data);
        if cleaned != [] {
          cellContent := cellContent + [cleaned];
        }
      }
    }

    /** `parser.feed(html)`: the handlers, event by event. */
    method Feed(events: seq<Event>)
      modifies this
      ensures State() == Run(old(State()), events)
    {
      var i := 0;
      while i < |events|
        invariant 0 <= i <= |events|
        invariant Run(State(), events[i..]) == Run(old(State()), events)
      {
        assert events[i..][1..] == events[i + 1..];
        match events[i] {
          case StartTag(tag, cls, href) => HandleStartTag(tag, cls, href);
          case EndTag(tag) => HandleEndTag(tag);
          case Data(text) => HandleData(text);
        }
        i := i + 1;
      }
    }
  }

  // ---------------------------------------------------------------------
  // Row conversion and the constraint flag
  // ---------------------------------------------------------------------

  /** One result record of `parse_constraint_report_html`. */
  datatype ConstraintViolation = ConstraintViolation(
    status: string, propertyName: string, propertyP: string, message: string, constraint: string)

  /** Cells 0 to 3 of a row; an unset or empty P number becomes `""`. */
  function RowResult(row: seq<Cell>): ConstraintViolation
    requires |row| >= 4
  {
    var p := if row[1].pNumber.Some? && row[1].pNumber.value != "" then row[1].pNumber.value else "";
    ConstraintViolation(row[0].text, row[1].text, p, row[2].text, row[3].text)
  }

  /** The rows of four or more cells, converted, in order. */
  function Converted(rows: seq<seq<Cell>>): seq<ConstraintViolation> {
    if rows == [] then []
    else
      var init := Converted(rows[..|rows| - 1]);
      var last := rows[|rows| - 1];
      if |last| >= 4 then init + [RowResult(last)] else init
  }

  method ConvertRows(rows: seq<seq<Cell>>) returns (results: seq<ConstraintViolation>)
    ensures results == Converted(rows)
  {
    results := [];
    for i := 0 to |rows|
      invariant results == Converted(rows[..i])
    {
      assert rows[..i + 1][..i] == rows[..i];
      if |rows[i]| >= 4 {
        results := results + [RowResult(rows[i])];
      }
    }
    assert rows[..|rows|] == rows;
  }

  /** `parse_constraint_report_html` over the tokenizer's events. */
  method ParseConstraintReport(events: seq<Event>) returns (results: seq<ConstraintViolation>)
    ensures results == Converted(Run(Initial, events).rows)
  {
    var parser := new ConstraintTableParser();
    parser.Feed(events);
    results := ConvertRows(parser.rows);
  }

  predicate MentionsP244(cs: seq<ConstraintViolation>) {
    exists i | 0 <= i < |cs| :: cs[i].propertyP == "P244"
  }

  /** The `constraint` attribute: `p244` when a violation concerns P244, otherwise `yes`
      when there is any violation, otherwise `no`. */
  function FlagOf(cs: seq<ConstraintViolation>): string {
    if MentionsP244(cs) then "p244" else if cs != [] then "yes" else "no"
  }

  /** The flag loop of `process_lccn_bot_xml`. */
  method ConstraintFlag(cs: seq<ConstraintViolation>) returns (flag: string)
    ensures flag == FlagOf(cs)
  {
    flag := "no";
    if |cs| > 0 {
      flag := "yes";
    }
    for i := 0 to |cs|
      invariant flag == (if MentionsP244(cs[..i]) then "p244" else if cs != [] then "yes" else "no")
    {
      if cs[i].propertyP == "P244" {
        flag := "p244";
      }
      assert MentionsP244(cs[..i + 1]) <==> MentionsP244(cs[..i]) || cs[i].propertyP == "P244" by {
        assert forall j | 0 <= j < i :: cs[..i + 1][j] == cs[..i][j];
        assert cs[..i + 1][i] == cs[i];
      }
    }
    assert cs[..|cs|] == cs;
  }

  // ---------------------------------------------------------------------
  // Properties of the table parser
  // ---------------------------------------------------------------------

  /** What every reachable parser state satisfies: stored rows have a cell, a stored row is
      the current row, buffered chunks are non-empty and stripped, a body is inside a table. */
  predicate Inv(st: TableState) {
    && (forall k | 0 <= k < |st.rows| :: st.rows[k] != [])
    && (st.rowStored ==> st.rows != [] && st.rows[|st.rows| - 1] == st.currentRow)
    && (forall c | c in st.cellContent :: c != "" && IsStripped(c))
    && (st.inTbody ==> st.inTable)
  }

  lemma StartTagInv(st: TableState, tag: string, cls: Option<string>, href: Option<string>)
    requires Inv(st)
    ensures Inv(StartTagStep(st, tag, cls, href))
  {
    if st.inCell && tag == "a" && href.Some? {
      LinkInv(st, href.value);
    }
  }

  lemma LinkInv(st: TableState, href: string)
    requires Inv(st)
    ensures Inv(LinkStep(st, href))
  {
    var r := LinkStep(st, href);
    assert r.rows == st.rows && r.rowStored == st.rowStored && r.currentRow == st.currentRow;
    assert r.cellContent == st.cellContent && r.inTbody == st.inTbody && r.inTable == st.inTable;
  }

  lemma EndTagInv(st: TableState, tag: string)
    requires Inv(st)
    ensures Inv(EndTagStep(st, tag))
  {
    if tag == "table" || tag == "tbody" || tag == "a" {
    } else if tag == "tr" && st.inRow {
      RowCloseInv(st);
    } else if tag == "td" && st.inCell {
      CellCloseInv(st);
    }
  }

  lemma RowCloseInv(st: TableState)
    requires Inv(st) && st.inRow
    ensures Inv(EndTagStep(st, "tr"))
  {
  }

  lemma CellCloseInv(st: TableState)
    requires Inv(st) && st.inCell
    ensures Inv(EndTagStep(st, "td"))
  {
    var r := EndTagStep(st, "td");
    if r.rows != st.rows {
      assert r.rows == st.rows[..|st.rows| - 1] + [r.currentRow];
      assert forall k | 0 <= k < |r.rows| - 1 :: r.rows[k] == st.rows[k];
    }
  }

  lemma DataInv(st: TableState, data: string)
    requires Inv(st)
    ensures Inv(DataStep(st, data))
  {
    if st.inCell && Strip(data) != [] {
      var c := Strip(data);
      assert IsStripped(c);
      assert forall x | x in st.cellContent + [c] :: x in st.cellContent || x == c;
    }
  }

  lemma StepInv(st: TableState, e: Event)
    requires Inv(st)
    ensures Inv(Step(st, e))
  {
    match e
    case StartTag(tag, cls, href) => StartTagInv(st, tag, cls, href);
    case EndTag(tag) => EndTagInv(st, tag);
    case Data(text) => DataInv(st, text);
  }

  lemma {:induction false} RunInv(st: TableState, es: seq<Event>)
    requires Inv(st)
    ensures Inv(Run(st, es))
    decreases |es|
  {
    if es != [] {
      StepInv(st, es[0]);
      RunInv(Step(st, es[0]), es[1..]);
    }
  }

  /** Every row the parser keeps has at least one cell. */
  lemma RowsHaveCells(es: seq<Event>)
    ensures forall k | 0 <= k < |Run(Initial, es).rows| :: |Run(Initial, es).rows[k]| >= 1
  {
    RunInv(Initial, es);
  }

  /** Closing a cell stores its chunks joined by single spaces; the `strip()` changes nothing. */
  lemma CellTextIsJoinedChunks(st: TableState)
    requires Inv(st) && st.inCell
    ensures var r := EndTagStep(st, "td");
      && r.currentRow == st.currentRow + [Cell(Join(st.cellContent, " "), st.currentP)]
      && !r.inCell
      && IsStripped(Join(st.cellContent, " "))
  {
    JoinOfStrippedChunks(st.cellContent);
  }

  /** Away from a sortable table nothing happens: the state at rest stays as it is. */
  predicate AtRest(st: TableState) {
    !st.inTable && !st.inTbody && !st.inRow && !st.inCell && !st.inPropertyLink && st.rows == []
  }

  /** Rows are collected only after a `<table>` whose class holds `wikitable sortable`. */
  lemma {:induction false} NoSortableTableNoRows(st: TableState, es: seq<Event>)
    requires AtRest(st)
    requires forall k | 0 <= k < |es| :: !(es[k].StartTag? && IsSortableTable(es[k].tag, es[k].cls))
    ensures Run(st, es).rows == []
    decreases |es|
  {
    if es != [] {
      assert !(es[0].StartTag? && IsSortableTable(es[0].tag, es[0].cls));
      assert AtRest(Step(st, es[0]));
      NoSortableTableNoRows(Step(st, es[0]), es[1..]);
    }
  }

  /** Outside a table body and a row, with nothing collected yet. */
  predicate NoBody(st: TableState) {
    !st.inTbody && !st.inRow && st.rows == []
  }

  /** Rows are collected only inside a `<tbody>`: without a `tbody` start no row is kept,
      even inside a sortable table. */
  lemma {:induction false} NoTbodyNoRows(st: TableState, es: seq<Event>)
    requires NoBody(st)
    requires forall k | 0 <= k < |es| :: !(es[k].StartTag? && es[k].tag == "tbody")
    ensures Run(st, es).rows == []
    decreases |es|
  {
    if es != [] {
      assert !(es[0].StartTag? && es[0].tag == "tbody");
      assert NoBody(Step(st, es[0]));
      NoTbodyNoRows(Step(st, es[0]), es[1..]);
    }
  }

  /** A `#P…` link in a cell sets the P number, replacing any earlier one. */
  lemma HashLinkSetsP(st: TableState, href: string)
    requires st.inCell
    requires Contains(href, "#P") && Patterns.SearchGroup(href, Patterns.HashProperty).Some?
    ensures var p := Patterns.SearchGroup(href, Patterns.HashProperty).value;
      StartTagStep(st, "a", None, Some(href)).currentP == Some(p) && IsId(p, 'P')
  {
    Patterns.SearchGroupIsProperty(href, Patterns.HashProperty);
  }

  /** A `/wiki/Property:P…` link only fills an unset P number; a set one is kept. */
  lemma PropertyLinkKeepsP(st: TableState, href: string)
    requires st.inCell
    requires !Contains(href, "#P")
    ensures var r := StartTagStep(st, "a", None, Some(href));
      && (st.currentP.Some? && st.currentP.value != "" ==> r.currentP == st.currentP)
      && (r.currentP != st.currentP ==> r.currentP == Patterns.SearchGroup(href, Patterns.PropertyPath))
  {
  }

  /** The number of rows with four or more cells. */
  function LongRows(rows: seq<seq<Cell>>): nat {
    if rows == [] then 0 else LongRows(rows[..|rows| - 1]) + (if |rows[|rows| - 1]| >= 4 then 1 else 0)
  }

  lemma {:induction false} ConvertedCount(rows: seq<seq<Cell>>)
    ensures |Converted(rows)| == LongRows(rows)
  {
    if rows != [] {
      ConvertedCount(rows[..|rows| - 1]);
    }
  }

  /** `r` is the conversion of one of the rows of four or more cells. */
  predicate FromLongRow(rows: seq<seq<Cell>>, r: ConstraintViolation) {
    exists j | 0 <= j < |rows| :: |rows[j]| >= 4 && r == RowResult(rows[j])
  }

  lemma {:induction false} ConvertedFrom(rows: seq<seq<Cell>>, k: nat)
    requires k < |Converted(rows)|
    ensures FromLongRow(rows, Converted(rows)[k])
  {
    var init, last := rows[..|rows| - 1], rows[|rows| - 1];
    var c := Converted(rows);
    assert c == Converted(init) + (if |last| >= 4 then [RowResult(last)] else []);
    if k < |Converted(init)| {
      ConvertedFrom(init, k);
      var j :| 0 <= j < |init| && |init[j]| >= 4 && Converted(init)[k] == RowResult(init[j]);
      assert c[k] == Converted(init)[k] && rows[j] == init[j];
    } else {
      assert |last| >= 4 && c[k] == RowResult(rows[|rows| - 1]);
    }
  }

  /** Each result comes from a row of at least four cells, and there are as many results as
      such rows. */
  lemma ConvertedRows(rows: seq<seq<Cell>>)
    ensures |Converted(rows)| == LongRows(rows)
    ensures forall k | 0 <= k < |Converted(rows)| :: FromLongRow(rows, Converted(rows)[k])
  {
    ConvertedCount(rows);
    forall k | 0 <= k < |Converted(rows)|
      ensures FromLongRow(rows, Converted(rows)[k])
    {
      ConvertedFrom(rows, k);
    }
  }

  /** The flag is `no` exactly for an empty list, and `p244` exactly when some violation is
      about P244. */
  lemma FlagMeaning(cs: seq<ConstraintViolation>)
    ensures FlagOf(cs) == "no" <==> cs == []
    ensures FlagOf(cs) == "p244" <==> MentionsP244(cs)
  {
  }
}
