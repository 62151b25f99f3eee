# Screener profile-page extraction, modelled in Dafny

This project models the extraction layer of a scraper for a company's profile page on
screener.in (`scrap_v2.py`). The scraper takes an already fetched page and turns its sections
into one nested mapping. It reads:

- the company name;
- the numeric company id hidden in a `style` block;
- every section reachable from the page's sub-navigation (summary, analysis, peers,
  quarterly results, profit & loss, balance sheet, cash flow, ratios, shareholding,
  documents);
- the four compounded-growth tables;
- a commentary fragment fetched with the company id.

The driver then derives a safe file name from the company name.

The model works over an abstract DOM (`Dom`). Each selector result is given as an
optional value or a sequence in document order:

- a table is its class set plus the rows of its `thead`, `tbody` and `tfoot`;
- a row is a sequence of `Th(text)` / `Td(text)` cells;
- the commentary fragment is a list of sibling nodes `Heading | Sub | Other`;
- a navigation link is an `(href, text)` pair.

Text from `get_text(strip=True)` is a given string. Text from `get_text(" ", strip=True)` is
a list of stripped fragments that `Text.Join` joins with single spaces, skipping empty ones.
The output is a `Json.Value` holding the source's exact keys and placeholder strings.

Modules:

- `Wrappers`, `Seqs`, `Text`, `Json`: option values, first-match search, string helpers,
  and the output value with its decoders.
- `Dom`: the abstract page.
- `Tables`: `parse_table` and the peer-table extraction.
- `Sections`: the section parsers.
- `Growth`: the growth-table state machine. It is proved equal to an independent "segment"
  reading of the rows.
- `Commentary`: heading/body pairing.
- `CompanyId`: the regular-expression search, proved against a declarative statement of
  the match.
- `Dispatch`: the navigation walk and the parser map.
- `Scraper`: the orchestration.
- `FileName`: the sanitiser.
- `Examples`: the documented behaviour on concrete inputs.

Three behaviours of `scrap_v2.py` that the model keeps as written:

- An absent table gives the empty mapping `{}`, not `{headers: [], rows: []}`
  (scrap_v2.py:31-32).
- A commentary heading is paired with the first later `div.sub` sibling. That sibling need
  not be the immediately following one, because `find_next_sibling` skips other siblings
  (scrap_v2.py:301-303).
- A growth entry needs exactly two `td` cells and no `th` (scrap_v2.py:266-277).

The model keeps two quirks of the code:

- Results are one dictionary, so a navigation link displayed as `company_name` or
  `company_id` overwrites that header field. A later link with the same text overwrites an
  earlier one.
- Without a sub-navigation the scraper returns early. Then there are no growth metrics, no
  commentary, and no commentary fetch.

Determinism holds by construction: every operation is a pure function.

## Model

| member | source | states |
|---|---|---|
| Tables.ParseTable | scrap_v2.py:31-54 | An absent table gives the absent result. Headers are the `th` texts of the first `thead` row, in cell order with repeats (see `Tables.ThTexts`), or none without a `thead` row. Every kept row is the text of a body row and has a non-empty cell, every body row with a non-empty cell is kept, and there are no more rows than body rows; their order is stated by `Tables.ParseTableRowOrder`. |
| Tables.NonBlankRows | scrap_v2.py:44-49 | A row text is in the result exactly when it is the text of some body row and has a non-empty cell. There are never more rows than in the body. |
| Tables.NonBlankRowsAppend | scrap_v2.py:44-49 | Blank-row filtering preserves order: filtering `a + b` gives the filtered `a` followed by the filtered `b`. |
| Tables.ParseTableRowOrder | scrap_v2.py:41-49 | The rows of a table whose body is `a + b` are its rows for body `a` followed by its rows for body `b`. |
| Tables.ThTexts | scrap_v2.py:36-38 | A header text is present exactly when the row holds a `th` cell with that text. A single `th` cell gives its text and a single `td` cell gives nothing. |
| Tables.ThTextsAppend | scrap_v2.py:36-38 | The headers of `a + b` are the headers of `a` followed by those of `b`. With the one-cell case this fixes the list: one entry per `th`, in cell order, repeats kept. |
| Tables.FirstDataTable | scrap_v2.py:181 | Returns the first table of the section that carries `data-table`, and nothing exactly when no table carries it. |
| Tables.ParsePeers | scrap_v2.py:134-173 | The placeholder appears exactly when no table carries all five peer classes. Otherwise the result is the extraction of the FIRST table that carries them all, whatever benchmark tables come before it. |
| Tables.PeerTableView | scrap_v2.py:141-167 | A text is a header exactly when some `thead` row holds a `th` with it. A row is a body (footer) row exactly when it is a non-blank row of the `tbody` (`tfoot`), and there are no more of them than rows in that part. One `thead` row gives that row's headers. |
| Tables.PeerTableOrder | scrap_v2.py:141-167 | Splitting head, body and foot in two splits the headers, rows and footer rows the same way: each list keeps document order. |
| Tables.AllThTexts | scrap_v2.py:146-149 | A text is a header exactly when some `thead` row holds a `th` with that text. One `thead` row gives that row's headers. |
| Tables.AllThTextsAppend | scrap_v2.py:146-149 | The headers of rows `a + b` are those of `a` followed by those of `b`: rows are read in order and each contributes its own headers. |
| Sections.TableJson | scrap_v2.py:31-54 | Rendering gives `{}` exactly for an absent table, and an object with exactly `headers` and `rows` otherwise. |
| Sections.TableJsonRoundTrip | scrap_v2.py:31-54 | Decoding the rendering gives back the table. So `{}` and `{headers: [], rows: []}` are never confused. |
| Sections.ParseSummary | scrap_v2.py:56-86 | Keys are exactly `about`, `key_points`, `top_ratios`. A missing about or key-points block gives `""`. The key points are the space-joined fragments. `top_ratios` is the list of ratios of the `#top-ratios` items, never longer than the item list. |
| Sections.TopRatios | scrap_v2.py:74-84 | Each output ratio is the rendering of some item that has both a name and a value. When every item has both, none is dropped. One item gives its `{name, value}` object when complete and nothing otherwise. |
| Sections.TopRatiosAppend | scrap_v2.py:74-84 | The ratios of items `a + b` are those of `a` followed by those of `b`, so output order is item order. |
| Sections.ParseAnalysis | scrap_v2.py:88-108 | `pros` and `cons` decode to the list items, or to `[]` when the list is missing. |
| Sections.ParsePeersSection | scrap_v2.py:132-175 | The only key is `peer_comparison`. It holds `{"info": "No peer table found"}` exactly when no table has all five classes. Otherwise it is an object with exactly `headers`, `rows` and `footer`. Decoding it gives back the peer extraction of the section's tables. |
| Sections.PeerJson | scrap_v2.py:137-173 | The placeholder is rendered exactly for the missing-table case, a found table has exactly the three keys, and decoding the rendering gives back the view. |
| Sections.ParseTableSection | scrap_v2.py:178-218 | Each table section has exactly its own key (`quarterly_results`, … `shareholding`). That key holds `{}` exactly when the section has no `data-table`, and decodes to the parse of the first `data-table`. |
| Sections.ParseDocuments | scrap_v2.py:220-224 | The only key is `documents_info`. It holds the space-joined text fragments, and is empty exactly when every fragment is empty. |
| Text.Join | scrap_v2.py:303 | The joined text is empty exactly when every fragment is empty. One fragment is returned as it is. |
| Text.JoinAppend | scrap_v2.py:303 | Joining `a + b` joins the two results with one space, or gives the other when one of them is empty: no empty fragment adds a space. |
| Text.JoinIsStripped | scrap_v2.py:303 | Joining stripped fragments gives a stripped text. |
| Text.LStrip | scrap_v2.py:407 | The result is a suffix of the input. Everything removed is `#`, and the result does not start with `#`. |
| Text.RStrip | scrap_v2.py:275 | The result is a prefix of the input. Everything removed is `:`, and the result does not end with `:`. |
| Text.Contains | scrap_v2.py:424 | True exactly when the substring occurs at some position. |
| Growth.RangesTables | scrap_v2.py:255 | Keeps the tables carrying `ranges-table` and no other. One table is kept or dropped on its class. |
| Growth.RangesTablesAppend | scrap_v2.py:255 | Selecting from `a + b` selects from `a`, then from `b`: document order is kept. |
| Growth.FirstTh | scrap_v2.py:266 | Returns nothing exactly when every cell is a `td`. Otherwise it returns the text of the FIRST `th` of the row: every earlier cell is a `td`. |
| Growth.Classify | scrap_v2.py:266-277 | A row is a heading row exactly when it has a `th`, and its heading is the first `th`'s text. It is an entry row exactly when it has exactly two cells, both `td`. An entry's label is the first cell without its trailing colons, and its value is the second cell. |
| Growth.Step | scrap_v2.py:265-277 | Each row keeps `row_data` the same dictionary as `data[heading]` (aliasing preserved). |
| Growth.GrowthIsSegments | scrap_v2.py:253-283 | The row-by-row state machine computes exactly the segment reading. Each heading row owns the entry rows up to the next heading row of its table, and each segment replaces what its heading held before. |
| Growth.GrowthKeys | scrap_v2.py:266-271 | A key is in the result exactly when some ranges table has a heading row with that text. |
| Growth.GrowthEntrySound | scrap_v2.py:272-277 | Every recorded period/value pair comes from a two-`td`, no-`th` row of some ranges table, with the label's trailing colons removed. |
| Growth.RepeatedHeadingResets | scrap_v2.py:268-271 | When a heading appears again, only the later segment's entries remain under it. |
| Growth.ApplySegmentsLast | scrap_v2.py:268-277 | The last segment with a heading decides that heading's entries. |
| Growth.RowsBeforeHeadingIgnored | scrap_v2.py:261-274 | Rows before a table's first heading row leave the result unchanged, because the heading is reset to none for each table. |
| Growth.GrowthMetrics | scrap_v2.py:253-283 | Keys are exactly the ranges-table headings. Every entry comes from an entry row. With no ranges table the result is `{}`. The result is the segment reading of the ranges tables: each heading holds the entries of its last segment, so every entry row after a heading row is recorded under it. |
| Commentary.BodyAfter | scrap_v2.py:301-303 | Returns nothing exactly when no later sibling is a body block. Otherwise it returns the joined text of the first later body block. |
| Commentary.ParseCommentary | scrap_v2.py:297-306 | Keys are exactly the heading texts that have a later body block; headings without one are omitted. Each key maps to the body after its last paired occurrence, so a later duplicate heading overwrites an earlier one. |
| CompanyId.GroupAt | scrap_v2.py:364 | The scan at one position agrees with the declarative match: the prefix, one or more digits, then a quote. |
| CompanyId.SearchFrom | scrap_v2.py:364 | Finds the group of the leftmost matching position, and finds nothing exactly when no position matches. |
| CompanyId.Search | scrap_v2.py:364-366 | The group of the leftmost match is a non-empty digit string, and there is none exactly when the text has no match. |
| CompanyId.FindCompanyId | scrap_v2.py:361-368 | The id comes from the first style text with a match, and earlier style texts have none. Nothing is found exactly when no style text matches. |
| Dispatch.LinkTarget | scrap_v2.py:403-411 | A link is skipped exactly when its href does not start with `#` or is all `#`. The id is the href with every leading `#` removed. The key is the link text, or the id when the text is empty. |
| Dispatch.FindContainer | scrap_v2.py:412-414 | Finds a `section` or `div` element with that id. It finds nothing exactly when neither exists, prefers a `section` whenever one exists, and returns the first element in document order of the tag it picks. |
| Dispatch.ChooseParser | scrap_v2.py:377-400 | Finds a parser exactly when the key or the id is registered with one. The key wins when it has one; otherwise the id's parser is used. `"Chart"` is registered with none, so it falls through to the id. |
| Dispatch.RunParser | scrap_v2.py:416-419 | No section parser produces a result with an `info` key, so a parsed section is never mistaken for the placeholder. |
| Dispatch.SectionValue | scrap_v2.py:416-421 | The stored value is the placeholder `{"info": "No specialized parser for this section."}` exactly when neither the key nor the id has a parser. Otherwise it is the chosen parser's result on the container. |
| Dispatch.LinkEntry | scrap_v2.py:402-421 | A link adds nothing exactly when it is skipped or resolves to no container. Otherwise it writes, under its key, the section value of its target and container. |
| Dispatch.ApplyEntries | scrap_v2.py:402-421 | Writing the entries in order gives exactly the earlier keys plus the written ones. A key holds the value of the last entry that writes it: a later link with the same text overwrites an earlier one. A key no entry writes keeps its earlier value. |
| Dispatch.LinkEntries | scrap_v2.py:402-415 | Entry `i` writes key `k` exactly when link `i` passes the `#`, non-empty-id and container tests and is displayed under `k`. |
| Dispatch.Dispatch | scrap_v2.py:402-421 | A key holds the section value of the last used link displayed under it. A key written by no used link keeps its earlier value. |
| Scraper.Scrape | scrap_v2.py:341-435 | Without a sub-navigation the result is exactly the header, that is `company_name` and `company_id`, with `"UnknownCompany"` and `"N/A"` as fallbacks. The run fails exactly when an id was found and its commentary fetch failed, and it carries that status. Otherwise the result is the walk's results with only `commentary` added: the info placeholder (no id) or the parsed commentary. |
| Scraper.CompanyName | scrap_v2.py:6-17 | The name is the text of the `div.company-nav h1.h2.shrink-text` heading when the page has one, and `"UnknownCompany"` otherwise. |
| Scraper.Header | scrap_v2.py:356-368 | The header holds exactly `company_name` and `company_id`. They are the page's name or `"UnknownCompany"`, and the first style match's digits or `"N/A"`. |
| Scraper.AfterWalk | scrap_v2.py:356-426 | The keys after the walk are exactly `company_name`, `company_id`, one key per used link, and `growth_metrics` when a `grid-template-columns` container exists. A header field keeps its page value (`"UnknownCompany"` / `"N/A"` fallbacks) unless a used link is displayed under its key. A link key holds the value of the last link displayed under it; for a link displayed as `growth_metrics` this holds when the page has no growth container. `growth_metrics` is the growth parse of the first container, written after the walk. |
| Scraper.NoIdNoFetch | scrap_v2.py:428-433 | Without a company id the result does not depend on the fetch and never fails. |
| Scraper.MetricsJson | scrap_v2.py:426 | The rendered metrics have the same headings, and each decodes back to its period mapping. |
| FileName.Sanitize | scrap_v2.py:447 | The output uses only `[A-Za-z0-9_]` and never has two `_` in a row. It is empty exactly when the input is. It starts with `_` exactly when the input starts with a non-alphanumeric. One character is kept when alphanumeric and becomes `_` otherwise; a non-empty name without alphanumerics becomes `_`. |
| FileName.SanitizeKeepsAlnums | scrap_v2.py:447 | The output keeps every alphanumeric of the name, in order, and adds none. |
| FileName.SanitizeAppend | scrap_v2.py:447 | Cutting the name next to an alphanumeric cuts no run, so the parts are sanitised independently. With the one-character case, every run of other characters becomes one `_` in its place. |
| FileName.SanitizeKeepsSafe | scrap_v2.py:447 | A name that is already safe is unchanged. |
| FileName.SanitizeIdempotent | scrap_v2.py:447 | Sanitising twice equals sanitising once. |
| FileName.OutputFileName | scrap_v2.py:445-450 | The file name has the fixed prefix and suffix. Between them is exactly the sanitised company name. |
| Examples.BlankRowDropped | scrap_v2.py:154-158 | Rows `["", ""]` and `["1.", "HDFC Bank"]` give only `["1.", "HDFC Bank"]`. |
| Examples.GrowthExample | scrap_v2.py:260-277 | A "Compounded Sales Growth" table with rows `10 Years:`/`17%` and `5 Years:`/`14%` gives `{"Compounded Sales Growth": {"10 Years": "17%", "5 Years": "14%"}}`. |
| Examples.CommentaryExample | scrap_v2.py:297-306 | "About" followed by its body block gives one entry. A trailing heading with no body block is left out. |

## Left out

- HTTP: the page fetch and the commentary fetch, with their headers and cookies (scrap_v2.py:315-335, 350-352), are I/O. The page is an input. The commentary fetch is a parameter `string -> Result<seq<CNode>, int>`, whose failure carries the HTTP status. A failure of the page fetch itself is not modelled.
- BeautifulSoup: HTML parsing, the CSS selector engine and `get_text` whitespace handling belong to a library. Selector results are given values and stripped text is given strings.
- Section ids are put into a CSS selector by string formatting (scrap_v2.py:412). An id that is not a valid CSS identifier, such as one starting with a digit, makes the selector engine raise or read it differently. The model matches ids literally.
- Table structure: only the first `thead`, `tbody` and `tfoot` of a table are represented. The growth parser reads their rows in that order (`Table.AllRows`); a `tfoot` written before its `tbody` is read first by `tbl.select("tr")` (scrap_v2.py:261), which can change the current heading, and that order is not represented. Rows placed directly in a `table` without a `tbody`, and tables nested inside cells, are not represented.
- Commentary: the fragment is one flat list of siblings. A node that is both a heading marker and a `div.sub` is not represented.
- CompanyId.Search: `\d` is matched over ASCII digits only. Python's `\d` also matches other Unicode decimal digits.
- The `print` diagnostics (scrap_v2.py:257, 280, 373) and the JSON file write (scrap_v2.py:452-455) are output only.
- Dictionary insertion order, that is the key order of the written JSON, is not modelled: results are maps.
- FileName.OutputFileName: takes the company name as a string. The driver's `scraped_data.get("company_name", …)` can return a section object when a navigation link is displayed as `company_name`, and then `re.sub` raises a type error; that case is not modelled.
- `scrap_screener.py` is not part of this model: its HTTP fetch, float parsing of cells and chart plotting are I/O and floating point.
