# Store report and research-note core, in Dafny

This project models two pieces of a small research-and-business assistant:

- **`ecommerce_agent`** (`research_agent.py`): the Shopify store report. In
  public mode it cleans the store URL, fetches the storefront's open
  `products.json`, and reports the product titles and the low-inventory
  alerts. In private mode it fetches orders and products from the admin API
  and also sums the order totals. Any exception becomes an error payload
  `{"error": "Shopify API error: ..."}`.
- **`public_shopify_scraper`** (`research_agent.py`): normalises a store URL,
  fetches `products.json`, and flattens every product into one record. The
  price and stock come from the product's first variant.
- **`save_note`** (`notetaker.py`): builds the note's file name from the title
  and a timestamp, picks the summary text, and writes the markdown note
  through a sequence of `f.write` calls.

Modules:

| file | module | contents |
|---|---|---|
| `wrappers.dfy` | `Wrappers` | `Option`, `Result` |
| `pystrings.dfy` | `PyStrings` | Python's `strip`/`rstrip`, `replace`, `startswith`, `str(int)`, and `float` on a price, counted in cents |
| `storefront.dfy` | `Storefront` | Shopify records with missing/`null`/present fields; `d[k]`, `d.get(k)`, `d.get(k, [])`; HTTP as a `Fetch` function; the exceptions and their `str(e)` texts |
| `reports.dfy` | `Reports` | `ecommerce_agent` |
| `scraper.dfy` | `Scraper` | `public_shopify_scraper` |
| `notes.dfy` | `Notes` | `save_note`, with the open file as a class |

The HTTP layer is a parameter `fetch: Request -> Result<Response, string>`.
Each request carries its URL, headers and timeout. The response carries its
status, its reason and the outcome of `resp.json()`. A JSON field the code
reads is `Absent`, `Null` or `Present(v)`, because `d[k]`, `d.get(k)` and
`d.get(k, [])` treat those three cases differently.

The two nested loops that build `inventory_alerts` are the imperative method
`Reports.InventoryAlerts`. It is proved equal to the recursive specification
`Reports.Alerts`. That function is in turn proved equal to a reference
reading: the alert line of every low-stock (product, variant) pair, in
listing order. `save_note` is the method `Notes.SaveNote` acting on a
`Notes.NoteFile` object. The object's `content` grows with each `Write`. A
ghost log of the writes ties that content to `Notes.NoteDocument`.

## Model

| member | source | states |
|---|---|---|
| Storefront.Subscript | research_agent.py:123 | `p["title"]`: a missing key raises `KeyError('title')`; a `null` reads as `None`; otherwise the value |
| Storefront.Items | research_agent.py:126 | iterating `p.get("variants", [])`: a missing list is empty; a `null` raises the not-iterable `TypeError`; otherwise the list itself |
| Storefront.Get | research_agent.py:97 | `d.get(k)` is `None` exactly when the key is missing or `null`, and a present field gives its own value |
| Storefront.RaiseForStatus | research_agent.py:120 | `raise_for_status` raises exactly on statuses 400..599, with the status, reason and URL; otherwise the response passes unchanged |
| Storefront.FetchJson | research_agent.py:119-121 | `requests.get(...)` then `.json()`: a transport failure raises with its message; with the status check, a 400..599 status raises `HTTPError` before the body is read; otherwise an undecodable body raises and a decoded one is returned as it is |
| Storefront.MessageOfPlainText | research_agent.py:171 | `str(e)` of `KeyError(k)` and of `float`'s `ValueError` shows the text as `repr` does: printable text without quotes or backslashes between single quotes |
| Storefront.MessageOfApostropheText | research_agent.py:146 | a price text holding a `'` and no `"` appears in `float`'s message between double quotes, the `'` unescaped |
| Reports.TopProducts | research_agent.py:123 | succeeds iff no product lacks a `title` key; then one entry per product, in order, each that product's title (or `None`); otherwise `KeyError('title')` |
| Reports.InventoryAlerts | research_agent.py:124-131 | the nested loop computes exactly `Alerts(products)`, including stopping at the first exception |
| Reports.AlertsMatchLowStock | research_agent.py:125-131 | `Alerts`: the alerts are defined iff no low-stock variant lacks a product or variant `title` key and no `variants` is `null`; when defined they are the alert lines of all low-stock (product, variant) pairs in listing order; the only failures are `KeyError('title')` and the not-iterable `TypeError` |
| Reports.VariantAlertsMatch | research_agent.py:126-131 | `VariantAlerts`, one product's inner loop: defined iff no low-stock variant lacks a needed `title` key; then the alert lines of that product's low-stock variants in order; otherwise `KeyError('title')` |
| Reports.AppendVariantAlerts | research_agent.py:126-131 | the inner loop appends exactly `VariantAlerts(title, variants)` to the alerts so far, or stops with its exception |
| Reports.AlertCount | research_agent.py:128 | one alert per low-stock variant |
| Reports.NoVariantsNoAlerts | research_agent.py:126 | a product whose variants are missing or empty contributes no alert, wherever it stands in the list |
| Reports.SingleVariantAlerts | research_agent.py:127-131 | `IsLow` and `AlertText`: a single variant raises an alert iff its quantity is present and below 10; the text is `"<product> (variant <variant>) low: <qty> left"` |
| Reports.AlertAtNine | research_agent.py:128-131 | a variant with 9 units raises exactly the alert `"t (variant v) low: 9 left"` |
| Reports.AlertAtZero | research_agent.py:128-131 | a variant with 0 units raises exactly the alert `"t (variant v) low: 0 left"` |
| Reports.AlertWhenOversold | research_agent.py:128-131 | a variant with -3 units raises exactly the alert `"t (variant v) low: -3 left"`, the count rendered with its sign |
| Reports.NoAlertAtTenOrUnknown | research_agent.py:127-128 | a variant with 10 units, a `null` quantity or no quantity raises no alert |
| Reports.OrderCents | research_agent.py:146 | `float(o.get("total_price", 0))`: a missing total counts as 0, a `null` one raises, text that does not parse raises with that text, otherwise its value in cents |
| Reports.SalesTotalAppend | research_agent.py:146 | `SalesTotal`: the total over two batches of orders is the sum of their totals; the first failing order decides the error |
| Reports.SumAppend | research_agent.py:146 | `Sum`, Python's `sum` over a generator: the sum of two runs of amounts is the sum of their sums, and the first exception in the first run, else in the second, is raised |
| Reports.SalesTotalSnoc | research_agent.py:146 | one more order adds its amount to the total so far, unless the total so far or that order raises |
| Reports.SalesTotalOfThree | research_agent.py:146 | an order totalling `whole.frac`, one totalling a whole `n` and one with no `total_price` sum to `whole.frac + n` in cents (for instance `"10.50"`, `"5"` and a missing total make 15.50) |
| Reports.CleanUrl | research_agent.py:117 | the cleaned URL neither starts nor ends with `/` |
| Reports.CleanUrlDropsScheme | research_agent.py:117 | a URL made of `https://` or `http://` followed by a colon-free rest cleans to that rest with its slashes stripped |
| Reports.CleanUrlOfHost | research_agent.py:117-118 | `http://<host>/` cleans to `<host>`, and the public request goes to `https://<host>/products.json?limit=<n>` |
| Reports.RequestHeaders | research_agent.py:118-149 | `PublicRequest` sends no header, so no access token; `OrdersRequest` and `ProductsRequest` carry `X-Shopify-Access-Token` with the configured token and go to different URLs; all three wait 10 seconds |
| Reports.PublicAgent | research_agent.py:116-139 | the public branch computes exactly `PublicReport` |
| Reports.PrivateAgent | research_agent.py:141-168 | the private branch computes exactly `PrivateReport` |
| Reports.EcommerceAgent | research_agent.py:109-171 | `ecommerce_agent` returns exactly `EcommercePayload`: public mode iff `public_mode` is set and `store_url` is a non-empty string, and every exception becomes the error payload |
| Reports.ReportShape | research_agent.py:133-139 | a public report is marked public, names the cleaned URL and carries the fixed sales marker; a private report (lines 162-168) names the configured store and carries the sum of the orders decoded from the orders request (lines 145-146); an error payload (`ToPayload`, lines 170-171) is `"Shopify API error: "` followed by the message of the exception the chosen branch raised |
| Reports.PublicReportShape | research_agent.py:170-171 | `ToPayload` of the public branch: a report of the cleaned URL with the sales marker, or exactly the prefixed message of the branch's exception |
| Reports.PrivateReportShape | research_agent.py:170-171 | `ToPayload` of the private branch: a report of the configured store whose total is the sum of the decoded orders, or exactly the prefixed message of the branch's exception |
| Reports.ReportIsComplete | research_agent.py:120-131 | a report is never partial: its top products and its alerts come from the whole product list decoded from the chosen mode's products request (lines 120 and 149), and its alerts are exactly those of that list's low-stock pairs |
| Reports.FetchJsonDepends | research_agent.py:119-121 | the decoded body depends only on the answer to the one request made |
| Reports.PublicModeFetchesOnlyListing | research_agent.py:118-121 | in public mode the payload depends only on the answer to `https://<clean>/products.json?limit=<n>` |
| Reports.PrivateModeFetchesOrdersAndProducts | research_agent.py:143-150 | in private mode the payload depends only on the answers to the orders request and the products request |
| PyStrings.RStrip | research_agent.py:89 | `rstrip` removes a suffix made only of the given characters, and leaves a result that does not end in one of them |
| PyStrings.LStrip | research_agent.py:117 | `lstrip` removes a prefix made only of the given characters, and leaves a result that does not start with one of them |
| PyStrings.Strip | research_agent.py:117 | `strip` returns a slice of its input: everything before it and after it is in the set, neither end of it is, and a string with no such character is unchanged |
| PyStrings.StripOf | research_agent.py:117 | a core whose ends are outside the set, between runs of set characters, is exactly what `strip` returns |
| PyStrings.RStripOf | research_agent.py:89 | `rstrip` removes exactly a trailing run of set characters and keeps everything before it |
| PyStrings.LStripOf | research_agent.py:117 | `lstrip` removes exactly a leading run of set characters and keeps everything after it |
| PyStrings.ReplaceAll | notetaker.py:8 | `str.replace` with a replacement as long as the pattern (`' '` by `'_'`) keeps the length |
| PyStrings.ReplaceAllLeftmost | research_agent.py:117 | `str.replace` replaces the leftmost occurrence: the text before it is kept, the pattern becomes the replacement (`""` for the scheme), and the scan goes on after it, so every later occurrence is replaced too |
| PyStrings.ReplaceAllAbsent | research_agent.py:117 | `replace` of a pattern that does not occur changes nothing |
| PyStrings.ReplaceCharPointwise | notetaker.py:8 | replacing one character by another keeps the length and changes exactly the positions that held it |
| PyStrings.IntToStringRoundTrip | research_agent.py:130 | `IntToString`: `str(n)` as rendered in the alert text reads back as `n`; with `IntToString`'s contract (a '-' exactly for negatives, then digits with no leading zero) this fixes the canonical numeral |
| PyStrings.ParseCentsWhole | research_agent.py:146 | `ParseCents` (`float` on a price): a whole-number price text parses to that many units |
| PyStrings.ParseCentsDecimal | research_agent.py:146 | a digit whole part, a `.` and at most two fraction digits parse to the whole part times 100 plus the fraction in cents |
| PyStrings.ParseUnsignedCentsAt | research_agent.py:146 | when the first `k` characters are digits and a `.` follows, the price splits into the whole part before it and the fraction after it |
| PyStrings.ParseCentsSigned | research_agent.py:146 | a leading `-` negates the price and a leading `+` changes nothing |
| PyStrings.ReprPlain | research_agent.py:171 | `repr` shows printable text without quotes or backslashes between single quotes |
| PyStrings.ReprApostrophe | research_agent.py:171 | `repr` shows printable text holding a `'` and no `"` between double quotes |
| Scraper.TrimmedUrl | research_agent.py:89 | after `strip().rstrip("/")` the URL does not end in `/` |
| Scraper.TrimmedUrlOf | research_agent.py:89 | `strip().rstrip("/")` removes exactly the surrounding whitespace and the trailing run of `/`, and keeps the core |
| Scraper.BaseUrl | research_agent.py:89-91 | the base URL always starts with `http`, and ends in `/` exactly when the trimmed input is empty (it is then `https://`) |
| Scraper.WithScheme | research_agent.py:90-91 | text that starts with `http` is kept as it is, anything else gets `https://` in front, and the result ends in `/` only when the text was empty or ended in `/` |
| Scraper.HttpPrefixKept | research_agent.py:90 | any text starting with `http` (`httpfoo.com` included) is kept without a scheme added |
| Scraper.Record | research_agent.py:96-103 | title, handle, type and vendor are the product's (`None` when missing or `null`); price and inventory come from the first variant; with no variants, the price is `None` and the inventory is `"N/A"` |
| Scraper.Records | research_agent.py:95-105 | one record per product, record `i` being `Record` of product `i` |
| Scraper.ScrapeOfListing | research_agent.py:93-106 | `PublicShopifyScraper` and `ScrapeOf`: whatever the HTTP status, a decoded listing gives one record per product in order, with mode `"public"` and the fixed note; a `null` listing raises; a missing one gives no records |
| Scraper.ScraperFetchesOnlyListing | research_agent.py:92-93 | the scraper depends only on the answer to its one request, `<base>/products.json?limit=<n>` |
| Scraper.ScrapeDepends | research_agent.py:92-93 | `ScrapeOf` after the fetch depends only on the answer to the request made |
| Notes.Lookup | notetaker.py:13 | `d.get(key)` finds a value iff the key is among the dict's entries, and the value found is stored under that key |
| Notes.NoteFileNameShape | notetaker.py:8 | `NoteFileName`: the file name is `notes/`, then the title with every space turned into `_` and nothing else changed, then `_<timestamp>.md` |
| Notes.SpaceUnderscoreCollision | notetaker.py:8 | titles that differ only in spaces against underscores map to the same file name |
| Notes.SummaryText | notetaker.py:11-13 | a string summary is used as it is; for a dict, a missing `"summary"` gives `""`, a string entry is used as it is, and the entry is usable iff it is a string; any other value cannot be written |
| Notes.SourcesOf | notetaker.py:22-24 | a Sources section is written iff the summary is a dict with a `"sources"` key, and what is dumped is that key's value |
| Notes.ConcatAppend | notetaker.py:15-31 | the text of successive writes is the concatenation of the text of each batch |
| Notes.NoteDocumentLayout | notetaker.py:16-31 | `NoteDocument`, the text of `NoteWrites`: the note is the title line, the `Created:` line, the summary heading and text, the Sources section only when there are sources, and the Business Data JSON block last |
| Notes.SourcesSectionOnly | notetaker.py:22-26 | every note starts with `# <title>` and ends with the Business Data block; leaving the sources out removes exactly the Sources section |
| Notes.DictSummaryNote | notetaker.py:11-20 | for a dict whose `"summary"` is a string `s` and which has no `"sources"`, the summary text is `s`, nothing is dumped, and the note is the head ending in `"## Research Summary\n\n" + s + "\n\n"` followed by the Business Data block |
| Notes.NoteFile.Write | notetaker.py:16 | a write appends its argument to the file's text and to the log of writes |
| Notes.SaveNote | notetaker.py:5-33 | the file is `NoteFileName(title, ts)`; the call succeeds iff the summary text is a string; then it returns that name and the file holds exactly the note's writes in order; otherwise `TypeError` is raised after the header lines were written, and the file keeps only them |

## Left out

- `research_agent`, `get_shopify_orders`, `get_shopify_products` (stand-alone helpers that send the same admin URLs and headers as the private branch, which builds its own requests; unlike it, they pass no timeout and call `raise_for_status()`), the LLM and search calls, `app.py` and `config.py` are not part of this model. The store URL and the access token are the `Config` parameter.
- Default arguments are not modelled: `ecommerce_agent`'s `store_url=None`, `limit=5` and `public_mode=False`, and `public_shopify_scraper`'s `limit=10`, are explicit parameters of `Reports.EcommerceAgent` and `Scraper.PublicShopifyScraper`.
- The network is a function parameter. Redirects, retries and the timeout's effect are not modelled; the timeout is only recorded in the request.
- `HttpStatus` carries the requested URL. After a redirect, `requests` reports the final URL instead.
- Reports.OrderCents: `float()` is abstracted to a whole number of cents. Only an optional sign, digits and at most two fraction digits are accepted. Exponents, `inf`, `nan`, underscores, surrounding whitespace and non-string JSON numbers are not modelled.
- Reports.SalesTotal: floating-point rounding is not modelled. The private-mode total is exact in cents. With no orders, Python's `sum` gives the int `0`, not `0.0`.
- Storefront.Message: the texts follow CPython and `requests` for the exceptions modelled. `repr` (PyStrings.Repr) is modelled for ASCII and for U+0080..U+00AD; other non-printable characters above U+00AD, which CPython writes as `\u`/`\U` escapes, are kept as they are. A failing `resp.json()` and a transport error keep the library's message as an opaque string.
- Storefront.PyStr: a title that is not a string (a number, a list) is not modelled. Every field the report reads is a string or `null`; quantities are integers or `null`.
- Exceptions outside the modelled ones are not modelled, for example a non-dict JSON top level or an `inventory_quantity` that is not a number.
- JSON objects with duplicate keys are not modelled. `Notes.Lookup` returns the first match; Python's `json` keeps the last.
- Notes.SaveNote: `datetime.now()` is two parameters, the file-name timestamp and the `Created:` text. `json.dumps(..., indent=2, ensure_ascii=False)` is an opaque parameter `dumps`. `os.makedirs` and a failing `open` are not modelled; the file is a fresh in-memory object and an existing file is overwritten.
- Notes.SummaryText: `summary_text + "\n\n"` only works for a `str`. Any other value (number, list, `None`, nested dict) is the single failure `SummaryNotText`. The exact `TypeError` message is not modelled.
- Scraper.BaseUrl: when the stripped input is empty (for example `"/"` or `"  "`), the base URL is `https://`, which ends in a slash; the code does exactly this.
- Reports.CleanUrl: the two `replace` calls remove every occurrence of each scheme, not only a leading one. The model keeps this behaviour; `CleanUrlDropsScheme` states the clean result only for inputs whose rest has no `:`.
