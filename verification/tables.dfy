/** The generic table extractor (`parse_table`) and the footer-bearing peer
    comparison extractor (`parse_peers_section`), both of which drop blank rows. */
module Tables {
  import opened Wrappers
  import opened Dom
  import Seqs

  /** The texts of a row's `th` and `td` cells, in document order. */
  function CellTexts(row: Row): (r: seq<string>)
    ensures |r| == |row|
    ensures forall i :: 0 <= i < |row| ==> r[i] == row[i].text
  {
    seq(|row|, i requires 0 <= i < |row| => row[i].text)
  }

  /** `any(row_text)`: some cell text is non-empty. */
  predicate HasText(texts: seq<string>) {
    exists i :: 0 <= i < |texts| && texts[i] != []
  }

  /** The cell texts of every row. */
  function Texts(rows: seq<Row>): (r: seq<seq<string>>)
    ensures |r| == |rows|
    ensures forall i :: 0 <= i < |rows| ==> r[i] == CellTexts(rows[i])
  {
    seq(|rows|, i requires 0 <= i < |rows| => CellTexts(rows[i]))
  }

  /** The cell texts of the rows that are not entirely blank, in their original order. */
  function NonBlankRows(rows: seq<Row>): (r: seq<seq<string>>)
    ensures |r| <= |rows|
    ensures forall t :: t in r <==> t in Texts(rows) && HasText(t)
  {
    if rows == [] then []
    else
      var t := CellTexts(rows[0]);
      assert Texts(rows) == [t] + Texts(rows[1..]);
      (if HasText(t) then [t] else []) + NonBlankRows(rows[1..])
  }

  /** Blank-row filtering keeps order: filtering a concatenation is concatenating
      the filtered parts. */
  lemma {:induction false} NonBlankRowsAppend(a: seq<Row>, b: seq<Row>)
    ensures NonBlankRows(a + b) == NonBlankRows(a) + NonBlankRows(b)
  {
    if a == [] {
      assert a + b == b;
    } else {
      assert (a + b)[0] == a[0];
      assert (a + b)[1..] == a[1..] + b;
      NonBlankRowsAppend(a[1..], b);
    }
  }

  /** A single row survives exactly when some cell is non-empty. */
  lemma NonBlankRowsSingle(row: Row)
    ensures NonBlankRows([row]) == if HasText(CellTexts(row)) then [CellTexts(row)] else []
  {
    assert [row][1..] == [];
  }

  /** The texts of a row's `th` cells, in document order (`header_row.select("th")`). */
  function ThTexts(row: Row): (r: seq<string>)
    ensures |r| <= |row|
    ensures forall h :: h in r <==> Th(h) in row
    ensures |row| == 1 ==> r == if row[0].Th? then [row[0].text] else []
  {
    if row == [] then []
    else
      assert row == [row[0]] + row[1..];
      (if row[0].Th? then [row[0].text] else []) + ThTexts(row[1..])
  }

  /** Header extraction keeps document order and repeats: the headers of two runs of
      cells are the headers of the first run followed by those of the second. */
  lemma {:induction false} ThTextsAppend(a: Row, b: Row)
    ensures ThTexts(a + b) == ThTexts(a) + ThTexts(b)
  {
    if a == [] {
      assert a + b == b;
    } else {
      assert (a + b)[0] == a[0];
      assert (a + b)[1..] == a[1..] + b;
      ThTextsAppend(a[1..], b);
    }
  }

  /** The `th` texts of every row, concatenated (`thead.select("tr th")`). */
  function AllThTexts(rows: seq<Row>): (r: seq<string>)
    ensures forall h :: h in r <==> exists i :: 0 <= i < |rows| && Th(h) in rows[i]
    ensures |rows| == 1 ==> r == ThTexts(rows[0])
  {
    if rows == [] then []
    else
      var rest := AllThTexts(rows[1..]);
      assert forall h :: (exists i :: 1 <= i < |rows| && Th(h) in rows[i]) <==>
                         (exists i :: 0 <= i < |rows| - 1 && Th(h) in rows[1..][i]) by {
        forall h | exists i :: 1 <= i < |rows| && Th(h) in rows[i]
          ensures exists i :: 0 <= i < |rows| - 1 && Th(h) in rows[1..][i]
        {
          var i :| 1 <= i < |rows| && Th(h) in rows[i];
          assert rows[1..][i - 1] == rows[i];
        }
      }
      ThTexts(rows[0]) + rest
  }

  /** Rows of a `thead` contribute their headers in document order. */
  lemma {:induction false} AllThTextsAppend(a: seq<Row>, b: seq<Row>)
    ensures AllThTexts(a + b) == AllThTexts(a) + AllThTexts(b)
  {
    if a == [] {
      assert a + b == b;
    } else {
      assert (a + b)[0] == a[0];
      assert (a + b)[1..] == a[1..] + b;
      AllThTextsAppend(a[1..], b);
    }
  }

  /** The result of `parse_table` for a present table: `{"headers": …, "rows": …}`. */
  datatype TableView = TableView(headers: seq<string>, rows: seq<seq<string>>)

  /** `parse_table`: `None` stands for the empty mapping returned for an absent table.
      Headers are the `th` texts of the first `thead` row only; rows are the non-blank
      `tbody` rows. */
  function ParseTable(t: Option<Table>): (r: Option<TableView>)
    ensures r.None? <==> t.None?
    ensures r.Some? && t.value.head == [] ==> r.value.headers == []
    ensures r.Some? && t.value.head != [] ==>
              forall h :: h in r.value.headers <==> Th(h) in t.value.head[0]
    ensures r.Some? && t.value.head != [] ==> r.value.headers == ThTexts(t.value.head[0])
    ensures r.Some? ==> |r.value.rows| <= |t.value.body|
    ensures r.Some? ==> forall row :: row in r.value.rows ==> HasText(row)
    ensures r.Some? ==> forall row :: row in r.value.rows ==> row in Texts(t.value.body)
    ensures r.Some? ==> forall i :: 0 <= i < |t.value.body| && HasText(CellTexts(t.value.body[i])) ==>
                                      CellTexts(t.value.body[i]) in r.value.rows
  {
    match t
    case None => None
    case Some(tbl) =>
      var headers := if tbl.head == [] then [] else ThTexts(tbl.head[0]);
      Some(TableView(headers, NonBlankRows(tbl.body)))
  }

  /** The rows of a table whose body is two runs of rows are the kept rows of the
      first run followed by the kept rows of the second: order is preserved. */
  lemma ParseTableRowOrder(classes: set<string>, head: seq<Row>, a: seq<Row>, b: seq<Row>, foot: seq<Row>)
    ensures ParseTable(Some(Table(classes, head, a + b, foot))).value.rows ==
            ParseTable(Some(Table(classes, head, a, foot))).value.rows +
            ParseTable(Some(Table(classes, head, b, foot))).value.rows
  {
    NonBlankRowsAppend(a, b);
  }

  /** `select_one("table.data-table")`: the first table carrying the class `data-table`. */
  function FirstDataTable(tables: seq<Table>): (r: Option<Table>)
    ensures r.Some? ==> r.value in tables && "data-table" in r.value.classes
    ensures r.None? <==> forall t :: t in tables ==> "data-table" !in t.classes
    ensures r.Some? ==> exists i :: 0 <= i < |tables| && tables[i] == r.value &&
                          forall j :: 0 <= j < i ==> "data-table" !in tables[j].classes
  {
    Seqs.First((t: Table) => "data-table" in t.classes, tables)
  }

  /** The five classes that single out the peer comparison table among the other
      data tables (benchmark comparisons) of the Peers section. */
  const PeerClasses: set<string> :=
    {"data-table", "text-nowrap", "striped", "mark-visited", "no-scroll-right"}

  predicate IsPeerTable(t: Table) {
    PeerClasses <= t.classes
  }

  /** The `peer_comparison` entry: the placeholder for a missing table, or the
      headers, kept body rows and kept footer rows. */
  datatype PeerView = NoPeerTable | PeerTable(headers: seq<string>, rows: seq<seq<string>>, footer: seq<seq<string>>)

  /** The extraction applied to the selected peer table. */
  function PeerTableView(t: Table): (r: PeerView)
    ensures r.PeerTable?
    ensures forall h :: h in r.headers <==> exists i :: 0 <= i < |t.head| && Th(h) in t.head[i]
    ensures forall row :: row in r.rows <==> row in Texts(t.body) && HasText(row)
    ensures forall row :: row in r.footer <==> row in Texts(t.foot) && HasText(row)
    ensures |r.rows| <= |t.body| && |r.footer| <= |t.foot|
    ensures |t.head| == 1 ==> r.headers == ThTexts(t.head[0])
  {
    PeerTable(AllThTexts(t.head), NonBlankRows(t.body), NonBlankRows(t.foot))
  }

  /** The peer extraction keeps document order in each part: a table whose `thead`,
      `tbody` and `tfoot` are each two runs of rows gives, in each field, the result of
      the first runs followed by the result of the second runs. */
  lemma {:induction false} PeerTableOrder(classes: set<string>, h1: seq<Row>, h2: seq<Row>, b1: seq<Row>, b2: seq<Row>,
                       f1: seq<Row>, f2: seq<Row>)
    ensures PeerTableView(Table(classes, h1 + h2, b1 + b2, f1 + f2)) ==
            var v1 := PeerTableView(Table(classes, h1, b1, f1));
            var v2 := PeerTableView(Table(classes, h2, b2, f2));
            PeerTable(v1.headers + v2.headers, v1.rows + v2.rows, v1.footer + v2.footer)
  {
    AllThTextsAppend(h1, h2);
    NonBlankRowsAppend(b1, b2);
    NonBlankRowsAppend(f1, f2);
  }

  /** `parse_peers_section` restricted to its table: the first table that carries all
      five peer classes, or the placeholder when none does. */
  function ParsePeers(tables: seq<Table>): (r: PeerView)
    ensures r.NoPeerTable? <==> forall t :: t in tables ==> !IsPeerTable(t)
    ensures r.PeerTable? ==> exists i :: 0 <= i < |tables| && IsPeerTable(tables[i]) && r == PeerTableView(tables[i]) &&
                                         forall j :: 0 <= j < i ==> !IsPeerTable(tables[j])
  {
    match Seqs.First(IsPeerTable, tables)
    case None => NoPeerTable
    case Some(t) => PeerTableView(t)
  }
}
