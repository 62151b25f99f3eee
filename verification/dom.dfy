/** An abstract view of the parsed profile page and commentary fragment.

    BeautifulSoup's parser and CSS selector engine are not modelled; instead every
    value here is what a selector of the scraper returns, in document order.
    A `string` field is the text `get_text(strip=True)` produces for that element;
    a `seq<string>` of fragments is the list of stripped text nodes that
    `get_text(" ", strip=True)` joins. */
module Dom {
  import opened Wrappers

  /** A `th` or `td` cell with its stripped text. */
  datatype Cell = Th(text: string) | Td(text: string)

  /** A `tr`: its `th`/`td` cells in document order. */
  type Row = seq<Cell>

  /** A `table` element: its class list and the `tr` rows of its first `thead`,
      first `tbody` and first `tfoot` (an absent part has no rows). */
  datatype Table = Table(classes: set<string>, head: seq<Row>, body: seq<Row>, foot: seq<Row>) {
    /** Every `tr` of the table (`tbl.select("tr")`), read as head, then body, then foot:
        the document order when the parts are written in that order. */
    function AllRows(): seq<Row> {
      head + body + foot
    }
  }

  /** One `#top-ratios > li` item: its `.name` and `.value` children, when present. */
  datatype RatioItem = RatioItem(name: Option<string>, value: Option<string>)

  /** What the section parsers select inside one section container. */
  datatype Content = Content(
    tables: seq<Table>,                // every descendant `table`
    about: Option<string>,             // first `div.about`
    keyPoints: Option<seq<string>>,    // first `div.sub.commentary`, as text fragments
    topRatios: seq<RatioItem>,         // `#top-ratios > li`
    pros: Option<seq<string>>,         // `li` texts of the first `div.pros ul`, if that `ul` exists
    cons: Option<seq<string>>,         // `li` texts of the first `div.cons ul`, if that `ul` exists
    text: seq<string>)                 // every text fragment of the container

  /** An element of the page that a selector can land on: its tag name, `id` and
      `style` attributes, and its content. Listed in document order. */
  datatype Element = Element(tag: string, id: Option<string>, style: Option<string>, content: Content)

  /** An `a` element with an `href` inside the sub-navigation, and its stripped text. */
  datatype NavLink = NavLink(href: string, text: string)

  /** The primary profile page. */
  datatype Page = Page(
    companyName: Option<string>,       // `div.company-nav h1.h2.shrink-text`
    styles: seq<string>,               // text of every `style` element
    subNav: Option<seq<NavLink>>,      // links of `div.sub-nav-holder .sub-nav`, if it exists
    elements: seq<Element>)

  /** A child of the commentary fragment: a heading marker
      (`div.strong.upper.letter-spacing`), a body block (`div.sub`, as text fragments),
      or any other sibling. The children are siblings of one parent. */
  datatype CNode = Heading(text: string) | Sub(fragments: seq<string>) | Other
}
