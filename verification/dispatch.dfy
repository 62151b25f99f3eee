/** The walk over the sub-navigation links of `scrape_screener_data`: which links are
    used, which container each resolves to, and which section parser reads it. */
module Dispatch {
  import opened Wrappers
  import opened Dom
  import opened Json
  import Text
  import Seqs
  import Sections

  /** The registered section parsers. */
  datatype Parser =
    | SummaryParser
    | AnalysisParser
    | PeersParser
    | TableParser(section: Sections.TableSection)
    | DocumentsParser

  /** `parser_map`: both the fragment-id spelling and the displayed title of a section
      name the same parser; "Chart" is registered with no parser. */
  const ParserMap: map<string, Option<Parser>> := map[
    "Summary" := Some(SummaryParser),
    "top" := Some(SummaryParser),
    "Chart" := None,
    "analysis" := Some(AnalysisParser),
    "Analysis" := Some(AnalysisParser),
    "peers" := Some(PeersParser),
    "Peers" := Some(PeersParser),
    "quarters" := Some(TableParser(Sections.Quarters)),
    "Quarters" := Some(TableParser(Sections.Quarters)),
    "profit-loss" := Some(TableParser(Sections.ProfitLoss)),
    "Profit & Loss" := Some(TableParser(Sections.ProfitLoss)),
    "balance-sheet" := Some(TableParser(Sections.BalanceSheet)),
    "Balance Sheet" := Some(TableParser(Sections.BalanceSheet)),
    "cash-flow" := Some(TableParser(Sections.CashFlow)),
    "Cash Flow" := Some(TableParser(Sections.CashFlow)),
    "ratios" := Some(TableParser(Sections.Ratios)),
    "Ratios" := Some(TableParser(Sections.Ratios)),
    "shareholding" := Some(TableParser(Sections.Shareholding)),
    "investors" := Some(TableParser(Sections.Shareholding)),
    "Investors" := Some(TableParser(Sections.Shareholding)),
    "documents" := Some(DocumentsParser),
    "Documents" := Some(DocumentsParser)
  ]

  /** `parser_map.get(key)`: a missing key and the `None` registered for "Chart" look alike. */
  function Lookup(key: string): Option<Parser> {
    if key in ParserMap then ParserMap[key] else None
  }

  /** `parser_map.get(link_label) or parser_map.get(section_id)`. */
  function ChooseParser(key: string, id: string): (r: Option<Parser>)
    ensures r.Some? <==> (key in ParserMap && ParserMap[key].Some?) || (id in ParserMap && ParserMap[id].Some?)
    ensures key in ParserMap && ParserMap[key].Some? ==> r == ParserMap[key]
    ensures !(key in ParserMap && ParserMap[key].Some?) && r.Some? ==> id in ParserMap && r == ParserMap[id]
    ensures key == "Chart" ==> "Chart" in ParserMap && (r.Some? <==> id in ParserMap && ParserMap[id].Some?)
  {
    match Lookup(key)
    case Some(p) => Some(p)
    case None => Lookup(id)
  }

  /** Runs the chosen parser on a section container. */
  function RunParser(p: Parser, c: Content): (r: Value)
    ensures r.Obj? && "info" !in r.fields
  {
    match p
    case SummaryParser => Sections.ParseSummary(c)
    case AnalysisParser => Sections.ParseAnalysis(c)
    case PeersParser => Sections.ParsePeersSection(c)
    case TableParser(s) => Sections.ParseTableSection(s, c)
    case DocumentsParser => Sections.ParseDocuments(c)
  }

  const NoParserInfo: Value := Obj(map["info" := Str("No specialized parser for this section.")])

  /** The key a link's result is stored under, and the fragment id it points at. */
  datatype Target = Target(key: string, id: string)

  /** Only in-page links (`#…`) whose id, with every leading `#` removed, is non-empty are
      used; the key is the link text, or the id when the text is empty. */
  function LinkTarget(link: NavLink): (r: Option<Target>)
    ensures r.None? <==> !Text.StartsWith(link.href, "#") || Text.LStrip(link.href, '#') == []
    ensures r.Some? ==> r.value.id == Text.LStrip(link.href, '#')
    ensures r.Some? && link.text != [] ==> r.value.key == link.text
    ensures r.Some? && link.text == [] ==> r.value.key == r.value.id
  {
    if !Text.StartsWith(link.href, "#") then None
    else
      var id := Text.LStrip(link.href, '#');
      if id == [] then None
      else Some(Target(if link.text != [] then link.text else id, id))
  }

  predicate IsSectionWithId(e: Element, id: string) {
    e.tag == "section" && e.id == Some(id)
  }

  predicate IsDivWithId(e: Element, id: string) {
    e.tag == "div" && e.id == Some(id)
  }

  /** `e` is the first element of `elements`, in document order, with this tag and id. */
  predicate IsFirstWith(elements: seq<Element>, tag: string, id: string, e: Element) {
    exists i :: 0 <= i < |elements| && elements[i] == e && e.tag == tag && e.id == Some(id) &&
      forall j :: 0 <= j < i ==> !(elements[j].tag == tag && elements[j].id == Some(id))
  }

  /** `soup.select_one(f"section#{id}") or soup.select_one(f"div#{id}")`: a `section` with
      the id is preferred over a `div` with it, wherever each appears. */
  function FindContainer(elements: seq<Element>, id: string): (r: Option<Element>)
    ensures r.None? <==> forall e :: e in elements ==> !IsSectionWithId(e, id) && !IsDivWithId(e, id)
    ensures r.Some? ==> r.value in elements && (IsSectionWithId(r.value, id) || IsDivWithId(r.value, id))
    ensures (exists e :: e in elements && IsSectionWithId(e, id)) ==> r.Some? && r.value.tag == "section"
    ensures r.Some? ==> IsFirstWith(elements, r.value.tag, id, r.value)
  {
    match Seqs.First((e: Element) => IsSectionWithId(e, id), elements)
    case Some(e) => Some(e)
    case None => Seqs.First((e: Element) => IsDivWithId(e, id), elements)
  }

  /** The value stored for a resolved link: the section parser's result, or the
      placeholder when no parser is registered under its key or its id. */
  function SectionValue(t: Target, e: Element): (r: Value)
    ensures r == NoParserInfo <==> ChooseParser(t.key, t.id).None?
    ensures ChooseParser(t.key, t.id).Some? ==> r == RunParser(ChooseParser(t.key, t.id).value, e.content)
  {
    match ChooseParser(t.key, t.id)
    case Some(p) => RunParser(p, e.content)
    case None => NoParserInfo
  }

  /** What one link adds to the results, if anything: under the link's key, the value
      `value` gives for its target and container (`SectionValue` in the scraper). */
  function LinkEntry<V>(elements: seq<Element>, link: NavLink, value: (Target, Element) -> V): (r: Option<(string, V)>)
    ensures r.None? <==> LinkTarget(link).None? || FindContainer(elements, LinkTarget(link).value.id).None?
    ensures r.Some? ==> r.value.0 == LinkTarget(link).value.key
    ensures r.Some? ==> r.value.1 == value(LinkTarget(link).value, FindContainer(elements, LinkTarget(link).value.id).value)
  {
    match LinkTarget(link)
    case None => None
    case Some(t) =>
      match FindContainer(elements, t.id)
      case None => None
      case Some(e) => Some((t.key, value(t, e)))
  }

  /** Entry `i` writes key `k`. */
  ghost predicate WritesAt<V>(es: seq<Option<(string, V)>>, i: int, k: string) {
    0 <= i < |es| && es[i].Some? && es[i].value.0 == k
  }

  /** Entry `i` is the last entry that writes key `k`. */
  ghost predicate LastAt<V>(es: seq<Option<(string, V)>>, i: int, k: string) {
    WritesAt(es, i, k) && forall j :: i < j ==> !WritesAt(es, j, k)
  }

  /** Writes entries into a mapping in order. The keys are those of the mapping and of the
      entries; a key holds the value of the last entry that writes it, and a key no entry
      writes keeps its value. */
  function ApplyEntries<V>(acc: map<string, V>, es: seq<Option<(string, V)>>): (r: map<string, V>)
    ensures forall k :: k in r <==> k in acc || exists i :: WritesAt(es, i, k)
    ensures forall k :: k in acc && (forall i :: !WritesAt(es, i, k)) ==> k in r && r[k] == acc[k]
    ensures forall i, k :: LastAt(es, i, k) ==> k in r && r[k] == es[i].value.1
    decreases es
  {
    if es == [] then acc
    else
      var acc' := if es[0].Some? then acc[es[0].value.0 := es[0].value.1] else acc;
      var r := ApplyEntries(acc', es[1..]);
      forall k ensures k in r <==> k in acc || exists i :: WritesAt(es, i, k) {
        assert k in acc' <==> k in acc || WritesAt(es, 0, k);
        if i :| WritesAt(es[1..], i, k) {
          assert WritesAt(es, i + 1, k);
        }
        if i :| WritesAt(es, i, k) {
          if i > 0 {
            assert WritesAt(es[1..], i - 1, k);
          }
        }
      }
      forall k | k in acc && (forall i :: !WritesAt(es, i, k)) ensures k in r && r[k] == acc[k] {
        assert !WritesAt(es, 0, k);
        forall i ensures !WritesAt(es[1..], i, k) {
          assert !WritesAt(es, i + 1, k);
        }
      }
      forall i, k | LastAt(es, i, k) ensures k in r && r[k] == es[i].value.1 {
        if i == 0 {
          forall j ensures !WritesAt(es[1..], j, k) {
            if 0 <= j {
              assert !WritesAt(es, j + 1, k);
            }
          }
        } else {
          forall j | i - 1 < j ensures !WritesAt(es[1..], j, k) {
            assert !WritesAt(es, j + 1, k);
          }
          assert LastAt(es[1..], i - 1, k);
        }
      }
      r
  }

  /** The entry of each link, in link order. */
  function LinkEntries<V>(elements: seq<Element>, links: seq<NavLink>, value: (Target, Element) -> V): (es: seq<Option<(string, V)>>)
    ensures |es| == |links|
    ensures forall i :: 0 <= i < |links| ==> es[i] == LinkEntry(elements, links[i], value)
    ensures forall i, k :: WritesAt(es, i, k) <==> Writes(elements, links, i, k)
  {
    seq(|links|, i requires 0 <= i < |links| => LinkEntry(elements, links[i], value))
  }

  /** Link `i` is used and writes under key `k`. */
  ghost predicate Writes(elements: seq<Element>, links: seq<NavLink>, i: int, k: string) {
    && 0 <= i < |links|
    && LinkTarget(links[i]).Some?
    && LinkTarget(links[i]).value.key == k
    && FindContainer(elements, LinkTarget(links[i]).value.id).Some?
  }

  /** Link `i` is the last used link that writes key `k`. */
  ghost predicate LastWrites(elements: seq<Element>, links: seq<NavLink>, i: int, k: string) {
    Writes(elements, links, i, k) && forall j :: i < j ==> !Writes(elements, links, j, k)
  }

  /** The loop over the links, in order, each writing its entry into the results: a key
      holds the entry of the last used link displayed under it, and a key no used link
      writes keeps its earlier value. (Which keys are added is stated with the scraper's
      results, `Scraper.AfterWalk`.) */
  function Dispatch<V>(elements: seq<Element>, links: seq<NavLink>, acc: map<string, V>, value: (Target, Element) -> V)
    : (r: map<string, V>)
    ensures forall k :: k in acc && (forall i :: !Writes(elements, links, i, k)) ==> k in r && r[k] == acc[k]
    ensures forall i, k :: LastWrites(elements, links, i, k) ==>
              k in r && r[k] == LinkEntry(elements, links[i], value).value.1
  {
    var es := LinkEntries(elements, links, value);
    assert forall i, k :: LastWrites(elements, links, i, k) ==> LastAt(es, i, k);
    ApplyEntries(acc, es)
  }

  /** The keys after the loop: the earlier ones and those of the used links. */
  lemma DispatchKeys<V>(elements: seq<Element>, links: seq<NavLink>, acc: map<string, V>, value: (Target, Element) -> V)
    ensures forall k :: k in Dispatch(elements, links, acc, value) <==> k in acc || exists i :: Writes(elements, links, i, k)
  {
  }
}
