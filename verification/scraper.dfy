/** `scrape_screener_data` after the page has been fetched and parsed: company name and
    id, the navigation walk, the growth tables, and the commentary merge. */
module Scraper {
  import opened Wrappers
  import opened Dom
  import opened Json
  import Text
  import Seqs
  import Growth
  import Commentary
  import CompanyId
  import Dispatch

  const UnknownCompany: string := "UnknownCompany"

  const CommentaryNotFetched: Value :=
    Obj(map["info" := Str("Company ID not found, so commentary not fetched.")])

  /** `parse_company_name`: the text of the name heading, or `"UnknownCompany"` when the
      page has none. */
  function CompanyName(page: Page): (r: string)
    ensures page.companyName.Some? ==> r == page.companyName.value
    ensures page.companyName.None? ==> r == UnknownCompany
  {
    page.companyName.GetOr(UnknownCompany)
  }

  /** `div[style*='grid-template-columns']`. */
  predicate IsGrowthContainer(e: Element) {
    e.tag == "div" && e.style.Some? && Text.Contains(e.style.value, "grid-template-columns")
  }

  /** The first growth container of the page, if any. */
  function GrowthContainer(elements: seq<Element>): Option<Element> {
    Seqs.First(IsGrowthContainer, elements)
  }

  /** The growth metrics as a nested object. */
  function MetricsJson(m: Growth.Metrics): (j: Value)
    ensures j.Obj? && j.fields.Keys == m.Keys
    ensures forall h :: h in m ==> AsStrMap(j.fields[h]) == Some(m[h])
  {
    forall h | h in m ensures AsStrMap(StrMap(m[h])) == Some(m[h]) {
      StrMapRoundTrip(m[h]);
    }
    Obj(map h | h in m :: StrMap(m[h]))
  }

  /** `company_name` and `company_id`, written before anything else. */
  function Header(page: Page): (h: map<string, Value>)
    ensures h.Keys == {"company_name", "company_id"}
    ensures h["company_name"] == Str(page.companyName.GetOr(UnknownCompany))
    ensures h["company_id"] == Str(match CompanyId.FindCompanyId(page.styles) case Some(d) => d case None => "N/A")
  {
    map[
      "company_name" := Str(CompanyName(page)),
      "company_id" := Str(CompanyId.CompanyIdText(CompanyId.FindCompanyId(page.styles)))]
  }

  /** `growth_metrics` when the page has a growth container. */
  function GrowthJson(page: Page): (g: Option<Value>)
    ensures g.Some? <==> GrowthContainer(page.elements).Some?
    ensures g.Some? ==> g.value == MetricsJson(Growth.GrowthMetrics(GrowthContainer(page.elements).value.content.tables))
  {
    match GrowthContainer(page.elements)
    case Some(g) => Some(MetricsJson(Growth.GrowthMetrics(g.content.tables)))
    case None => None
  }

  /** The results after the navigation walk and the growth tables, for the function that
      gives each resolved link its value (`Dispatch.SectionValue` in the scraper) and the
      growth metrics (`GrowthJson(page)`). */
  function Walked(page: Page, links: seq<NavLink>, value: (Dispatch.Target, Element) -> Value, growth: Option<Value>)
    : map<string, Value>
  {
    var sections := Dispatch.Dispatch(page.elements, links, Header(page), value);
    match growth
    case Some(g) => sections["growth_metrics" := g]
    case None => sections
  }

  /** The results after the navigation walk and the growth tables: the two header
      fields, one key per used link, and `growth_metrics` when a growth container exists.
      A header field keeps its value unless a used link is displayed under its key, a
      link's key holds the value of the last link displayed under it, and the growth
      tables are read after the walk, so nothing overwrites them. */
  function AfterWalk(page: Page, links: seq<NavLink>): (r: map<string, Value>)
    ensures forall k :: k in r <==>
              || k == "company_name" || k == "company_id"
              || (k == "growth_metrics" && GrowthContainer(page.elements).Some?)
              || exists i :: Dispatch.Writes(page.elements, links, i, k)
    ensures GrowthContainer(page.elements).Some? ==>
              "growth_metrics" in r &&
              r["growth_metrics"] == MetricsJson(Growth.GrowthMetrics(GrowthContainer(page.elements).value.content.tables))
    ensures forall k :: k in Header(page) && (forall i :: !Dispatch.Writes(page.elements, links, i, k)) ==>
              k in r && r[k] == Header(page)[k]
    ensures forall i, k ::
              (k != "growth_metrics" || GrowthContainer(page.elements).None?) && Dispatch.LastWrites(page.elements, links, i, k)
              ==> k in r && r[k] == Dispatch.LinkEntry(page.elements, links[i], Dispatch.SectionValue).value.1
  {
    var growth := GrowthJson(page);
    WalkedKeys(page, links, Dispatch.SectionValue, growth);
    WalkedGrowth(page, links, Dispatch.SectionValue, growth);
    WalkedKeep(page, links, Dispatch.SectionValue, growth);
    WalkedLast(page, links, Dispatch.SectionValue, growth);
    Walked(page, links, Dispatch.SectionValue, growth)
  }

  // The four facts about `Walked` that `AfterWalk` states, each proved on its own.

  lemma WalkedKeys(page: Page, links: seq<NavLink>, value: (Dispatch.Target, Element) -> Value, growth: Option<Value>)
    ensures forall k :: k in Walked(page, links, value, growth) <==>
              || k == "company_name" || k == "company_id"
              || (k == "growth_metrics" && growth.Some?)
              || exists i :: Dispatch.Writes(page.elements, links, i, k)
  {
    Dispatch.DispatchKeys(page.elements, links, Header(page), value);
  }

  lemma WalkedGrowth(page: Page, links: seq<NavLink>, value: (Dispatch.Target, Element) -> Value, growth: Option<Value>)
    ensures growth.Some? ==>
              "growth_metrics" in Walked(page, links, value, growth) &&
              Walked(page, links, value, growth)["growth_metrics"] == growth.value
  {
  }

  lemma WalkedKeep(page: Page, links: seq<NavLink>, value: (Dispatch.Target, Element) -> Value, growth: Option<Value>)
    ensures forall k :: k in Header(page) && (forall i :: !Dispatch.Writes(page.elements, links, i, k)) ==>
              k in Walked(page, links, value, growth) && Walked(page, links, value, growth)[k] == Header(page)[k]
  {
  }

  lemma WalkedLast(page: Page, links: seq<NavLink>, value: (Dispatch.Target, Element) -> Value, growth: Option<Value>)
    ensures forall i, k :: (k != "growth_metrics" || growth.None?) && Dispatch.LastWrites(page.elements, links, i, k) ==>
              k in Walked(page, links, value, growth) &&
              Walked(page, links, value, growth)[k] == Dispatch.LinkEntry(page.elements, links[i], value).value.1
  {
  }

  /** The commentary fetch: the commentary fragment of the company with the given id, or
      the HTTP status with which the request failed. */
  type Fetch = string -> Result<seq<CNode>, int>

  /** `scrape_screener_data`. Only a failed commentary fetch makes it fail; missing page
      structure gives placeholders, empty values or a shorter result. */
  function Scrape(page: Page, fetch: Fetch): (r: Result<map<string, Value>, int>)
    ensures page.subNav.None? ==> r.Success? && r.value.Keys == {"company_name", "company_id"}
    ensures page.subNav.None? ==> r == Success(Header(page))
    ensures page.subNav.None? && page.companyName.None? ==> r.value["company_name"] == Str(UnknownCompany)
    ensures page.subNav.None? && CompanyId.FindCompanyId(page.styles).None? ==> r.value["company_id"] == Str("N/A")
    ensures r.Failure? <==> page.subNav.Some? && CompanyId.FindCompanyId(page.styles).Some? &&
                            fetch(CompanyId.FindCompanyId(page.styles).value).Failure?
    ensures r.Failure? ==> r.error == fetch(CompanyId.FindCompanyId(page.styles).value).error
    ensures r.Success? && page.subNav.Some? ==> "commentary" in r.value
    ensures r.Success? && page.subNav.Some? && CompanyId.FindCompanyId(page.styles).None? ==>
              r.value["commentary"] == CommentaryNotFetched
    ensures r.Success? && page.subNav.Some? && CompanyId.FindCompanyId(page.styles).Some? ==>
              AsStrMap(r.value["commentary"]) ==
              Some(Commentary.ParseCommentary(fetch(CompanyId.FindCompanyId(page.styles).value).value))
    ensures r.Success? && page.subNav.Some? ==>
              r.value == AfterWalk(page, page.subNav.value)["commentary" := r.value["commentary"]]
  {
    var id := CompanyId.FindCompanyId(page.styles);
    match page.subNav
    case None => Success(Header(page))
    case Some(links) =>
      var results := AfterWalk(page, links);
      match id
      case None => Success(results["commentary" := CommentaryNotFetched])
      case Some(cid) =>
        match fetch(cid)
        case Failure(status) => Failure(status)
        case Success(nodes) =>
          var commentary := Commentary.ParseCommentary(nodes);
          StrMapRoundTrip(commentary);
          Success(results["commentary" := StrMap(commentary)])
  }

  /** Without a company id the commentary endpoint is never consulted: the result does not
      depend on the fetch. */
  lemma NoIdNoFetch(page: Page, f: Fetch, g: Fetch)
    requires CompanyId.FindCompanyId(page.styles).None?
    ensures Scrape(page, f) == Scrape(page, g)
    ensures Scrape(page, f).Success?
  {
  }
}
