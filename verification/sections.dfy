/** The section parsers of the profile page. Each reads one section container and
    returns the sub-mapping the scraper stores under the section's navigation label. */
module Sections {
  import opened Wrappers
  import opened Dom
  import opened Json
  import Text
  import Tables

  /** `{}` for an absent table, otherwise `{"headers": […], "rows": […]}`. */
  function TableJson(v: Option<Tables.TableView>): (j: Value)
    ensures j.Obj?
    ensures v.None? <==> j.fields == map[]
    ensures v.Some? ==> j.fields.Keys == {"headers", "rows"}
  {
    match v
    case None => Obj(map[])
    case Some(t) =>
      var j := Obj(map["headers" := StrList(t.headers), "rows" := Grid(t.rows)]);
      assert "headers" in j.fields;
      j
  }

  /** Reads back a rendered table. */
  function AsTable(j: Value): Option<Option<Tables.TableView>> {
    if j == Obj(map[]) then Some(None)
    else if j.Obj? && j.fields.Keys == {"headers", "rows"} then
      match (AsStrList(j.fields["headers"]), AsGrid(j.fields["rows"]))
      case (Some(h), Some(rows)) => Some(Some(Tables.TableView(h, rows)))
      case _ => None
    else None
  }

  /** Rendering a table loses nothing; in particular an absent table (`{}`) and a
      present table without headers or rows are told apart. */
  lemma TableJsonRoundTrip(v: Option<Tables.TableView>)
    ensures AsTable(TableJson(v)) == Some(v)
  {
    if v.Some? {
      StrListRoundTrip(v.value.headers);
      GridRoundTrip(v.value.rows);
      assert "headers" in TableJson(v).fields;
    }
  }

  /** `parse_summary_section`. */
  function ParseSummary(c: Content): (j: Value)
    ensures j.Obj? && j.fields.Keys == {"about", "key_points", "top_ratios"}
    ensures j.fields["about"] == Str(c.about.GetOr(""))
    ensures j.fields["key_points"] == Str(if c.keyPoints.None? then "" else Text.Join(c.keyPoints.value))
    ensures j.fields["top_ratios"] == Arr(TopRatios(c.topRatios))
    ensures |j.fields["top_ratios"].items| <= |c.topRatios|
  {
    Obj(map[
      "about" := Str(c.about.GetOr("")),
      "key_points" := Str(match c.keyPoints case Some(parts) => Text.Join(parts) case None => ""),
      "top_ratios" := Arr(TopRatios(c.topRatios))])
  }

  /** A ratio item with both a `.name` and a `.value`. */
  predicate Complete(item: RatioItem) {
    item.name.Some? && item.value.Some?
  }

  /** `{"ratio_name": …, "ratio_value": …}`. */
  function RatioJson(name: string, value: string): Value {
    Obj(map["ratio_name" := Str(name), "ratio_value" := Str(value)])
  }

  /** The rendering of a ratio item that has both a name and a value. */
  predicate IsRatioOf(j: Value, item: RatioItem) {
    Complete(item) && j == RatioJson(item.name.value, item.value.value)
  }

  /** One `{"ratio_name": …, "ratio_value": …}` per item that has both a name and a value. */
  function TopRatios(items: seq<RatioItem>): (r: seq<Value>)
    ensures |r| <= |items|
    ensures forall j :: j in r ==> exists i :: 0 <= i < |items| && IsRatioOf(j, items[i])
    ensures (forall i :: 0 <= i < |items| ==> Complete(items[i])) ==> |r| == |items|
    ensures |items| == 1 ==>
              r == if Complete(items[0]) then [RatioJson(items[0].name.value, items[0].value.value)] else []
  {
    if items == [] then []
    else
      var rest := TopRatios(items[1..]);
      assert forall j :: j in rest ==> exists i :: 1 <= i < |items| && IsRatioOf(j, items[i]) by {
        forall j | j in rest ensures exists i :: 1 <= i < |items| && IsRatioOf(j, items[i]) {
          var i :| 0 <= i < |items[1..]| && IsRatioOf(j, items[1..][i]);
          assert items[1..][i] == items[i + 1];
        }
      }
      match items[0]
      case RatioItem(Some(n), Some(v)) =>
        assert IsRatioOf(RatioJson(n, v), items[0]);
        [RatioJson(n, v)] + rest
      case _ => rest
  }

  /** Ratios are rendered one item at a time, in item order: with the single-item case
      of `TopRatios`, every complete item gives exactly one ratio, in its place, and
      every incomplete item gives none. */
  lemma {:induction false} TopRatiosAppend(a: seq<RatioItem>, b: seq<RatioItem>)
    ensures TopRatios(a + b) == TopRatios(a) + TopRatios(b)
  {
    if a == [] {
      assert a + b == b;
    } else {
      assert (a + b)[0] == a[0];
      assert (a + b)[1..] == a[1..] + b;
      TopRatiosAppend(a[1..], b);
    }
  }

  /** `parse_analysis_section`: the pros and cons lists, empty when their list is missing. */
  function ParseAnalysis(c: Content): (j: Value)
    ensures j.Obj? && j.fields.Keys == {"pros", "cons"}
    ensures AsStrList(j.fields["pros"]) == Some(c.pros.GetOr([]))
    ensures AsStrList(j.fields["cons"]) == Some(c.cons.GetOr([]))
  {
    StrListRoundTrip(c.pros.GetOr([]));
    StrListRoundTrip(c.cons.GetOr([]));
    Obj(map["pros" := StrList(c.pros.GetOr([])), "cons" := StrList(c.cons.GetOr([]))])
  }

  const NoPeerInfo: Value := Obj(map["info" := Str("No peer table found")])

  /** `parse_peers_section`. */
  function ParsePeersSection(c: Content): (j: Value)
    ensures j.Obj? && j.fields.Keys == {"peer_comparison"}
    ensures (forall t :: t in c.tables ==> !Tables.IsPeerTable(t)) <==> j.fields["peer_comparison"] == NoPeerInfo
    ensures (exists t :: t in c.tables && Tables.IsPeerTable(t)) ==>
            j.fields["peer_comparison"].Obj? && j.fields["peer_comparison"].fields.Keys == {"headers", "rows", "footer"}
    ensures AsPeer(j.fields["peer_comparison"]) == Some(Tables.ParsePeers(c.tables))
  {
    Obj(map["peer_comparison" := PeerJson(Tables.ParsePeers(c.tables))])
  }

  /** The placeholder for a missing peer table, otherwise
      `{"headers": […], "rows": [[…], …], "footer": [[…], …]}`. */
  function PeerJson(p: Tables.PeerView): (j: Value)
    ensures p.NoPeerTable? <==> j == NoPeerInfo
    ensures p.PeerTable? ==> j.Obj? && j.fields.Keys == {"headers", "rows", "footer"}
    ensures AsPeer(j) == Some(p)
  {
    match p
    case NoPeerTable => NoPeerInfo
    case PeerTable(headers, rows, footer) =>
      var j := Obj(map["headers" := StrList(headers), "rows" := Grid(rows), "footer" := Grid(footer)]);
      assert "footer" in j.fields && "footer" !in NoPeerInfo.fields;
      StrListRoundTrip(headers);
      GridRoundTrip(rows);
      GridRoundTrip(footer);
      j
  }

  /** Reads back a rendered `peer_comparison` entry. */
  function AsPeer(j: Value): Option<Tables.PeerView> {
    if j == NoPeerInfo then Some(Tables.NoPeerTable)
    else if j.Obj? && j.fields.Keys == {"headers", "rows", "footer"} then
      match (AsStrList(j.fields["headers"]), AsGrid(j.fields["rows"]), AsGrid(j.fields["footer"]))
      case (Some(h), Some(rows), Some(footer)) => Some(Tables.PeerTable(h, rows, footer))
      case _ => None
    else None
  }

  /** The sections that hold one plain data table, and the key each is stored under. */
  datatype TableSection = Quarters | ProfitLoss | BalanceSheet | CashFlow | Ratios | Shareholding

  function TableKey(s: TableSection): string {
    match s
    case Quarters => "quarterly_results"
    case ProfitLoss => "profit_loss"
    case BalanceSheet => "balance_sheet"
    case CashFlow => "cash_flow"
    case Ratios => "ratios"
    case Shareholding => "shareholding"
  }

  /** `parse_quarters_section`, `parse_profit_loss_section`, … `parse_shareholding_section`:
      the first `data-table` of the section through `parse_table`, `{}` when there is none. */
  function ParseTableSection(s: TableSection, c: Content): (j: Value)
    ensures j.Obj? && j.fields.Keys == {TableKey(s)}
    ensures (forall t :: t in c.tables ==> "data-table" !in t.classes) <==> j.fields[TableKey(s)] == Obj(map[])
    ensures AsTable(j.fields[TableKey(s)]) == Some(Tables.ParseTable(Tables.FirstDataTable(c.tables)))
  {
    TableJsonRoundTrip(Tables.ParseTable(Tables.FirstDataTable(c.tables)));
    Obj(map[TableKey(s) := TableJson(Tables.ParseTable(Tables.FirstDataTable(c.tables)))])
  }

  /** `parse_documents_section`: all the section's text, space-joined. */
  function ParseDocuments(c: Content): (j: Value)
    ensures j.Obj? && j.fields.Keys == {"documents_info"}
    ensures j.fields["documents_info"] == Str([]) <==> forall i :: 0 <= i < |c.text| ==> c.text[i] == []
    ensures j.fields["documents_info"] == Str(Text.Join(c.text))
  {
    Obj(map["documents_info" := Str(Text.Join(c.text))])
  }
}
