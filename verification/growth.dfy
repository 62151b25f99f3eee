/** `parse_growth_tables`: the compounded-growth tables (`table.ranges-table`) of the
    page, read row by row by a small state machine that remembers the current heading. */
module Growth {
  import opened Wrappers
  import opened Dom
  import Text

  /** Metric heading ↦ (period label ↦ value). */
  type Metrics = map<string, map<string, string>>

  /** The tables the parser scans, in document order. */
  function RangesTables(tables: seq<Table>): (r: seq<Table>)
    ensures |r| <= |tables|
    ensures forall t :: t in r <==> t in tables && "ranges-table" in t.classes
    ensures |tables| == 1 ==> r == if "ranges-table" in tables[0].classes then tables else []
  {
    if tables == [] then []
    else
      assert tables == [tables[0]] + tables[1..];
      (if "ranges-table" in tables[0].classes then [tables[0]] else []) + RangesTables(tables[1..])
  }

  /** Selection keeps document order and repeats, which decides the heading that a
      later table repeating it leaves behind. */
  lemma {:induction false} RangesTablesAppend(a: seq<Table>, b: seq<Table>)
    ensures RangesTables(a + b) == RangesTables(a) + RangesTables(b)
  {
    if a == [] {
      assert a + b == b;
    } else {
      assert (a + b)[0] == a[0];
      assert (a + b)[1..] == a[1..] + b;
      RangesTablesAppend(a[1..], b);
    }
  }

  /** `h` is the text of the first `th` of `row`: every cell before it is a `td`. */
  predicate IsFirstTh(row: Row, h: string) {
    exists i :: 0 <= i < |row| && row[i] == Th(h) && forall j :: 0 <= j < i ==> row[j].Td?
  }

  /** The text of the first `th` of a row (`row.find("th")`), if it has one. */
  function FirstTh(row: Row): (r: Option<string>)
    ensures r.None? <==> forall i :: 0 <= i < |row| ==> row[i].Td?
    ensures r.Some? ==> Th(r.value) in row
    ensures r.Some? ==> IsFirstTh(row, r.value)
  {
    if row == [] then None
    else if row[0].Th? then Some(row[0].text)
    else FirstTh(row[1..])
  }

  /** The texts of a row's `td` cells (`row.find_all("td")`). */
  function TdTexts(row: Row): (r: seq<string>)
    ensures |r| <= |row|
    ensures (forall i :: 0 <= i < |row| ==> row[i].Td?) ==> |r| == |row|
    ensures forall x :: x in r <==> Td(x) in row
  {
    if row == [] then []
    else
      assert row == [row[0]] + row[1..];
      (if row[0].Td? then [row[0].text] else []) + TdTexts(row[1..])
  }

  /** What one row means to the parser. */
  datatype RowKind = HeadingRow(heading: string) | EntryRow(period: string, value: string) | IgnoredRow

  /** A row with a `th` is a heading row; a row of exactly two `td` (and no `th`) is an
      entry whose label loses its trailing colons; any other row is ignored. */
  function Classify(row: Row): (k: RowKind)
    ensures k.HeadingRow? <==> exists c :: c in row && c.Th?
    ensures k.HeadingRow? ==> Th(k.heading) in row && IsFirstTh(row, k.heading)
    ensures k.EntryRow? <==> (forall c :: c in row ==> c.Td?) && |row| == 2
    ensures k.EntryRow? ==> k.period == Text.RStrip(row[0].text, ':') && k.value == row[1].text
    ensures k.EntryRow? ==> k.period == [] || k.period[|k.period| - 1] != ':'
  {
    match FirstTh(row)
    case Some(h) => HeadingRow(h)
    case None =>
      var tds := TdTexts(row);
      if |tds| == 2 then
        assert tds == [row[0].text, row[1].text];
        EntryRow(Text.RStrip(tds[0], ':'), tds[1])
      else IgnoredRow
  }

  /** The parser's state while reading one table: the metrics so far, the current
      heading (`None` until the table's first heading row), and the current heading's
      entries (`row_data`, which is the very dictionary stored under the heading). */
  datatype State = State(data: Metrics, heading: Option<string>, current: map<string, string>)

  /** The aliasing of `row_data` with `data[heading_text]`. */
  predicate Aliased(st: State) {
    st.heading.Some? ==> st.heading.value in st.data && st.data[st.heading.value] == st.current
  }

  /** One row of the state machine. */
  function Step(st: State, row: Row): (r: State)
    ensures Aliased(st) ==> Aliased(r)
  {
    match Classify(row)
    case HeadingRow(h) => State(st.data[h := map[]], Some(h), map[])
    case EntryRow(l, v) =>
      (match st.heading
       case None => st
       case Some(h) =>
         var cur := st.current[l := v];
         State(st.data[h := cur], Some(h), cur))
    case IgnoredRow => st
  }

  function RunRows(st: State, rows: seq<Row>): State
    decreases rows
  {
    if rows == [] then st else RunRows(Step(st, rows[0]), rows[1..])
  }

  /** Each table starts with no heading and a fresh, unattached `row_data`. */
  function RunTables(data: Metrics, tables: seq<Table>): Metrics
    decreases tables
  {
    if tables == [] then data
    else RunTables(RunRows(State(data, None, map[]), tables[0].AllRows()).data, tables[1..])
  }

  /** `parse_growth_tables` over the tables found inside the growth container. */
  function ParseGrowthTables(tables: seq<Table>): Metrics
  {
    RunTables(map[], RangesTables(tables))
  }

  // ---------------------------------------------------------------------------
  // Reference definition: a table is a list of segments, one per heading row,
  // each owning the entry rows up to the next heading row.
  // ---------------------------------------------------------------------------

  datatype Segment = Segment(heading: string, entries: seq<(string, string)>)

  /** The entries before the first heading row, and the segments after it. */
  function Split(rows: seq<Row>): (seq<(string, string)>, seq<Segment>)
  {
    if rows == [] then ([], [])
    else
      var (pre, segs) := Split(rows[1..]);
      match Classify(rows[0])
      case HeadingRow(h) => ([], [Segment(h, pre)] + segs)
      case EntryRow(l, v) => ([(l, v)] + pre, segs)
      case IgnoredRow => (pre, segs)
  }

  function TableSegments(rows: seq<Row>): seq<Segment> {
    Split(rows).1
  }

  function AllSegments(tables: seq<Table>): seq<Segment> {
    if tables == [] then [] else TableSegments(tables[0].AllRows()) + AllSegments(tables[1..])
  }

  /** Adds entries in order; a repeated label keeps its last value. */
  function AddEntries(m: map<string, string>, es: seq<(string, string)>): map<string, string>
    decreases es
  {
    if es == [] then m else AddEntries(m[es[0].0 := es[0].1], es[1..])
  }

  /** Each segment replaces whatever its heading held before. */
  function ApplySegments(d: Metrics, segs: seq<Segment>): Metrics
    decreases segs
  {
    if segs == [] then d
    else ApplySegments(d[segs[0].heading := AddEntries(map[], segs[0].entries)], segs[1..])
  }

  lemma {:induction false} ApplySegmentsAppend(d: Metrics, a: seq<Segment>, b: seq<Segment>)
    ensures ApplySegments(d, a + b) == ApplySegments(ApplySegments(d, a), b)
    decreases a
  {
    if a != [] {
      assert (a + b)[0] == a[0];
      assert (a + b)[1..] == a[1..] + b;
      ApplySegmentsAppend(d[a[0].heading := AddEntries(map[], a[0].entries)], a[1..], b);
    } else {
      assert a + b == b;
    }
  }

  /** The state machine over `rows` from `st` agrees with the segment reading: the
      entries before the first heading row go to the current heading, if any, and each
      segment then replaces its heading's entries. */
  ghost predicate Agrees(st: State, rows: seq<Row>) {
    && (st.heading.None? ==> RunRows(st, rows).data == ApplySegments(st.data, Split(rows).1))
    && (st.heading.Some? ==>
          RunRows(st, rows).data ==
          ApplySegments(st.data[st.heading.value := AddEntries(st.current, Split(rows).0)], Split(rows).1))
  }

  /** The state machine over one table's rows agrees with the segment reading. */
  lemma {:induction false} RunRowsIsSegments(st: State, rows: seq<Row>)
    requires Aliased(st)
    ensures st.heading.None? ==> RunRows(st, rows).data == ApplySegments(st.data, Split(rows).1)
    ensures st.heading.Some? ==>
              RunRows(st, rows).data ==
              ApplySegments(st.data[st.heading.value := AddEntries(st.current, Split(rows).0)], Split(rows).1)
    decreases rows
  {
    if rows == [] {
      if st.heading.Some? {
        assert st.data[st.heading.value := st.current] == st.data;
      }
    } else {
      RunRowsIsSegments(Step(st, rows[0]), rows[1..]);
      match Classify(rows[0])
      case HeadingRow(h) => HeadingRowAgrees(st, rows, h);
      case EntryRow(l, v) => EntryRowAgrees(st, rows, l, v);
      case IgnoredRow =>
    }
  }

  /** A heading row starts a segment: the current heading keeps what it had. */
  lemma HeadingRowAgrees(st: State, rows: seq<Row>, h: string)
    requires Aliased(st) && rows != [] && Classify(rows[0]) == HeadingRow(h)
    requires Agrees(Step(st, rows[0]), rows[1..])
    ensures Agrees(st, rows)
  {
    var (pre, segs) := Split(rows[1..]);
    assert st.data[h := map[]][h := AddEntries(map[], pre)] == st.data[h := AddEntries(map[], pre)];
    if st.heading.Some? {
      assert AddEntries(st.current, []) == st.current;
      assert st.data[st.heading.value := st.current] == st.data;
    }
  }

  /** An entry row adds its pair to the current heading's entries, if there is one. */
  lemma EntryRowAgrees(st: State, rows: seq<Row>, l: string, v: string)
    requires Aliased(st) && rows != [] && Classify(rows[0]) == EntryRow(l, v)
    requires Agrees(Step(st, rows[0]), rows[1..])
    ensures Agrees(st, rows)
  {
    var (pre, segs) := Split(rows[1..]);
    if st.heading.Some? {
      var h := st.heading.value;
      assert st.data[h := st.current[l := v]][h := AddEntries(st.current[l := v], pre)]
          == st.data[h := AddEntries(st.current, [(l, v)] + pre)];
    }
  }

  lemma {:induction false} RunTablesIsSegments(d: Metrics, tables: seq<Table>)
    ensures RunTables(d, tables) == ApplySegments(d, AllSegments(tables))
    decreases tables
  {
    if tables != [] {
      RunRowsIsSegments(State(d, None, map[]), tables[0].AllRows());
      RunTablesIsSegments(RunRows(State(d, None, map[]), tables[0].AllRows()).data, tables[1..]);
      ApplySegmentsAppend(d, TableSegments(tables[0].AllRows()), AllSegments(tables[1..]));
    }
  }

  /** The row-by-row parser computes exactly the segment reading of the ranges tables. */
  lemma {:induction false} GrowthIsSegments(tables: seq<Table>)
    ensures ParseGrowthTables(tables) == ApplySegments(map[], AllSegments(RangesTables(tables)))
  {
    RunTablesIsSegments(map[], RangesTables(tables));
  }

  // ---------------------------------------------------------------------------
  // Properties of the parser, stated over tables and rows.
  // ---------------------------------------------------------------------------

  /** Some row is a heading row with heading `h`. */
  ghost predicate HeadingInRows(rows: seq<Row>, h: string) {
    exists row :: row in rows && FirstTh(row) == Some(h)
  }

  /** Some row is an entry row for `e`. */
  ghost predicate EntryInRows(rows: seq<Row>, e: (string, string)) {
    exists row :: row in rows && Classify(row) == EntryRow(e.0, e.1)
  }

  /** A heading row of one of the ranges tables. */
  ghost predicate HeadingIn(tables: seq<Table>, h: string) {
    exists t :: t in tables && "ranges-table" in t.classes && HeadingInRows(t.AllRows(), h)
  }

  /** An entry row of one of the ranges tables. */
  ghost predicate EntryIn(tables: seq<Table>, period: string, value: string) {
    exists t :: t in tables && "ranges-table" in t.classes && EntryInRows(t.AllRows(), (period, value))
  }

  /** Some segment has heading `h`. */
  ghost predicate SegmentHeaded(segs: seq<Segment>, h: string) {
    exists s :: s in segs && s.heading == h
  }

  /** Some segment holds entry `e`. */
  ghost predicate SegmentHolds(segs: seq<Segment>, e: (string, string)) {
    exists s :: s in segs && e in s.entries
  }

  lemma {:induction false} SplitHeadings(rows: seq<Row>, h: string)
    ensures SegmentHeaded(Split(rows).1, h) <==> HeadingInRows(rows, h)
    decreases rows
  {
    if rows != [] {
      SplitHeadings(rows[1..], h);
      if HeadingInRows(rows, h) {
        var row :| row in rows && FirstTh(row) == Some(h);
        if row != rows[0] {
          assert row in rows[1..];
        }
      }
      if HeadingInRows(rows[1..], h) {
        var row :| row in rows[1..] && FirstTh(row) == Some(h);
        assert row in rows;
      }
      var (pre, segs) := Split(rows[1..]);
      match Classify(rows[0])
      case HeadingRow(h0) =>
        assert Split(rows).1 == [Segment(h0, pre)] + segs;
        assert FirstTh(rows[0]) == Some(h0);
        if SegmentHeaded(segs, h) {
          var s :| s in segs && s.heading == h;
          assert s in Split(rows).1;
        }
        if h0 == h {
          assert Segment(h0, pre) in Split(rows).1;
        }
      case EntryRow(_, _) =>
        assert Split(rows).1 == segs;
        assert FirstTh(rows[0]).None?;
      case IgnoredRow =>
        assert Split(rows).1 == segs;
        assert FirstTh(rows[0]).None?;
    }
  }

  lemma {:induction false} AllSegmentsHeadings(tables: seq<Table>, h: string)
    ensures SegmentHeaded(AllSegments(tables), h) <==>
            exists t :: t in tables && HeadingInRows(t.AllRows(), h)
    decreases tables
  {
    if tables != [] {
      AllSegmentsHeadings(tables[1..], h);
      SplitHeadings(tables[0].AllRows(), h);
      var first := TableSegments(tables[0].AllRows());
      var rest := AllSegments(tables[1..]);
      assert AllSegments(tables) == first + rest;
      if SegmentHeaded(AllSegments(tables), h) {
        var s: Segment :| s in first + rest && s.heading == h;
        if s in first {
          assert SegmentHeaded(first, h);
          assert tables[0] in tables;
        } else {
          assert SegmentHeaded(rest, h);
          var t :| t in tables[1..] && HeadingInRows(t.AllRows(), h);
          assert t in tables;
        }
      }
      if exists t :: t in tables && HeadingInRows(t.AllRows(), h) {
        var t :| t in tables && HeadingInRows(t.AllRows(), h);
        if t == tables[0] {
          var s :| s in first && s.heading == h;
          assert s in AllSegments(tables);
        } else {
          assert t in tables[1..];
          var s :| s in rest && s.heading == h;
          assert s in AllSegments(tables);
        }
      }
    }
  }

  lemma {:induction false} ApplySegmentsKeys(d: Metrics, segs: seq<Segment>, h: string)
    ensures h in ApplySegments(d, segs) <==> h in d || SegmentHeaded(segs, h)
    decreases segs
  {
    if segs != [] {
      ApplySegmentsKeys(d[segs[0].heading := AddEntries(map[], segs[0].entries)], segs[1..], h);
      if SegmentHeaded(segs, h) {
        var s :| s in segs && s.heading == h;
        if s != segs[0] {
          assert s in segs[1..];
        }
      }
      if SegmentHeaded(segs[1..], h) {
        var s :| s in segs[1..] && s.heading == h;
        assert s in segs;
      }
    }
  }

  /** The result's keys are exactly the headings of the ranges tables: a heading with no
      entry row still appears, mapped to `{}`. */
  lemma GrowthKeys(tables: seq<Table>, h: string)
    ensures h in ParseGrowthTables(tables) <==> HeadingIn(tables, h)
  {
    var ranges := RangesTables(tables);
    GrowthIsSegments(tables);
    ApplySegmentsKeys(map[], AllSegments(ranges), h);
    AllSegmentsHeadings(ranges, h);
    if HeadingIn(tables, h) {
      var t :| t in tables && "ranges-table" in t.classes && HeadingInRows(t.AllRows(), h);
      assert t in ranges;
    }
    if exists t :: t in ranges && HeadingInRows(t.AllRows(), h) {
      var t :| t in ranges && HeadingInRows(t.AllRows(), h);
      assert t in tables && "ranges-table" in t.classes;
    }
  }

  /** The last segment with a given heading decides that heading's entries. */
  lemma {:induction false} ApplySegmentsLast(d: Metrics, segs: seq<Segment>, i: nat)
    requires i < |segs|
    requires forall j :: i < j < |segs| ==> segs[j].heading != segs[i].heading
    ensures segs[i].heading in ApplySegments(d, segs)
    ensures ApplySegments(d, segs)[segs[i].heading] == AddEntries(map[], segs[i].entries)
    decreases segs
  {
    var d' := d[segs[0].heading := AddEntries(map[], segs[0].entries)];
    if i == 0 {
      ApplySegmentsKeep(d', segs[1..], segs[0].heading);
    } else {
      ApplySegmentsLast(d', segs[1..], i - 1);
    }
  }

  lemma {:induction false} ApplySegmentsKeep(d: Metrics, segs: seq<Segment>, h: string)
    requires h in d
    requires forall j :: 0 <= j < |segs| ==> segs[j].heading != h
    ensures h in ApplySegments(d, segs) && ApplySegments(d, segs)[h] == d[h]
    decreases segs
  {
    if segs != [] {
      ApplySegmentsKeep(d[segs[0].heading := AddEntries(map[], segs[0].entries)], segs[1..], h);
    }
  }

  /** A heading that appears again starts over: of two segments with the same heading,
      the later one's entries are all that remain, whatever the earlier one held. */
  lemma RepeatedHeadingResets(d: Metrics, a: seq<Segment>, h: string, es: seq<(string, string)>, b: seq<Segment>)
    requires forall j :: 0 <= j < |b| ==> b[j].heading != h
    ensures h in ApplySegments(d, a + [Segment(h, es)] + b)
    ensures ApplySegments(d, a + [Segment(h, es)] + b)[h] == AddEntries(map[], es)
  {
    var segs := a + [Segment(h, es)] + b;
    assert segs[|a|] == Segment(h, es);
    forall j | |a| < j < |segs| ensures segs[j].heading != h {
      assert segs[j] == b[j - |a| - 1];
    }
    ApplySegmentsLast(d, segs, |a|);
  }

  /** Every value `AddEntries` holds came from `m` or from one of the entries. */
  lemma {:induction false} AddEntriesSound(m: map<string, string>, es: seq<(string, string)>, l: string)
    requires l in AddEntries(m, es)
    ensures (l in m && AddEntries(m, es)[l] == m[l]) || (l, AddEntries(m, es)[l]) in es
    decreases es
  {
    if es != [] {
      AddEntriesSound(m[es[0].0 := es[0].1], es[1..], l);
      assert es == [es[0]] + es[1..];
    }
  }

  /** Every entry the segment reading keeps comes from an entry row. */
  lemma {:induction false} SplitEntrySound(rows: seq<Row>, e: (string, string))
    requires e in Split(rows).0 || SegmentHolds(Split(rows).1, e)
    ensures EntryInRows(rows, e)
    decreases rows
  {
    var (pre, segs) := Split(rows[1..]);
    if e in pre || SegmentHolds(segs, e) {
      SplitEntrySound(rows[1..], e);
      var row :| row in rows[1..] && Classify(row) == EntryRow(e.0, e.1);
      assert row in rows;
    } else {
      // Only an entry row puts a new entry in front of the ones after it.
      assert Classify(rows[0]) == EntryRow(e.0, e.1);
      assert rows[0] in rows;
    }
  }

  lemma {:induction false} AllSegmentsEntrySound(tables: seq<Table>, e: (string, string))
    requires SegmentHolds(AllSegments(tables), e)
    ensures exists t :: t in tables && EntryInRows(t.AllRows(), e)
    decreases tables
  {
    var first := TableSegments(tables[0].AllRows());
    var rest := AllSegments(tables[1..]);
    assert AllSegments(tables) == first + rest;
    var s: Segment :| s in first + rest && e in s.entries;
    if s in first {
      assert SegmentHolds(first, e);
      SplitEntrySound(tables[0].AllRows(), e);
      assert tables[0] in tables;
    } else {
      assert SegmentHolds(rest, e);
      AllSegmentsEntrySound(tables[1..], e);
      var t :| t in tables[1..] && EntryInRows(t.AllRows(), e);
      assert t in tables;
    }
  }

  lemma {:induction false} ApplySegmentsSound(d: Metrics, segs: seq<Segment>, h: string)
    requires h in ApplySegments(d, segs)
    ensures (h in d && ApplySegments(d, segs)[h] == d[h]) ||
            exists s :: s in segs && s.heading == h && ApplySegments(d, segs)[h] == AddEntries(map[], s.entries)
    decreases segs
  {
    if segs != [] {
      ApplySegmentsSound(d[segs[0].heading := AddEntries(map[], segs[0].entries)], segs[1..], h);
      assert segs == [segs[0]] + segs[1..];
    }
  }

  /** Every recorded (period ↦ value) pair comes from a row of exactly two `td` cells
      and no `th` in one of the ranges tables, with the trailing colons of its first
      cell removed. */
  lemma GrowthEntrySound(tables: seq<Table>, h: string, period: string)
    requires h in ParseGrowthTables(tables) && period in ParseGrowthTables(tables)[h]
    ensures EntryIn(tables, period, ParseGrowthTables(tables)[h][period])
  {
    var ranges := RangesTables(tables);
    var segs := AllSegments(ranges);
    GrowthIsSegments(tables);
    ApplySegmentsSound(map[], segs, h);
    var s :| s in segs && s.heading == h && ApplySegments(map[], segs)[h] == AddEntries(map[], s.entries);
    var v := ParseGrowthTables(tables)[h][period];
    AddEntriesSound(map[], s.entries, period);
    assert SegmentHolds(segs, (period, v));
    AllSegmentsEntrySound(ranges, (period, v));
    var t :| t in ranges && EntryInRows(t.AllRows(), (period, v));
    assert t in tables && "ranges-table" in t.classes;
  }

  /** Rows before a table's first heading row change nothing: without a heading the
      parser ignores entry rows. */
  lemma {:induction false} RowsBeforeHeadingIgnored(d: Metrics, cur: map<string, string>, rows: seq<Row>, k: nat)
    requires k <= |rows|
    requires forall i :: 0 <= i < k ==> FirstTh(rows[i]).None?
    ensures RunRows(State(d, None, cur), rows) == RunRows(State(d, None, cur), rows[k..])
    decreases k
  {
    if k > 0 {
      assert Step(State(d, None, cur), rows[0]) == State(d, None, cur);
      RowsBeforeHeadingIgnored(d, cur, rows[1..], k - 1);
      assert rows[1..][k - 1..] == rows[k..];
    }
  }

  /** The parser, with the properties it promises. */
  function GrowthMetrics(tables: seq<Table>): (r: Metrics)
    ensures forall h :: h in r <==> HeadingIn(tables, h)
    ensures forall h, period :: h in r && period in r[h] ==> EntryIn(tables, period, r[h][period])
    ensures (forall t :: t in tables ==> "ranges-table" !in t.classes) ==> r == map[]
    ensures r == ApplySegments(map[], AllSegments(RangesTables(tables)))
  {
    GrowthIsSegments(tables);
    forall h ensures h in ParseGrowthTables(tables) <==> HeadingIn(tables, h) {
      GrowthKeys(tables, h);
    }
    forall h, period | h in ParseGrowthTables(tables) && period in ParseGrowthTables(tables)[h]
      ensures EntryIn(tables, period, ParseGrowthTables(tables)[h][period])
    {
      GrowthEntrySound(tables, h, period);
    }
    ParseGrowthTables(tables)
  }
}
