/**
 * `public_shopify_scraper`: fetch a storefront's open product listing and
 * flatten each product to one record, price and stock taken from its first
 * variant. Unlike `ecommerce_agent`, it neither checks the HTTP status nor
 * catches exceptions: every failure reaches the caller.
 */
module Scraper {
  import opened Wrappers
  import opened PyStrings
  import opened Storefront

  /** Seconds `requests.get` waits in the scraper. */
  const SCRAPER_TIMEOUT := 15
  const SCRAPE_MODE := "public"
  const SCRAPE_NOTE := "Sales data is private and not available via public endpoints."

  /**
   * `variant.get("inventory_quantity", "N/A")`: the marker "N/A" for a
   * missing key, `None` for a `null`, or the count.
   */
  datatype Inventory = NotAvailable | NoQuantity | Quantity(n: int)

  datatype ProductRecord = ProductRecord(
    title: Option<string>,
    price: Option<string>,
    inventory: Inventory,
    handle: Option<string>,
    productType: Option<string>,
    vendor: Option<string>)

  /** The dict the scraper returns. */
  datatype Scrape = Scrape(mode: string, products: seq<ProductRecord>, note: string)

  /** `store_url.strip().rstrip("/")`. */
  function TrimmedUrl(storeUrl: string): (t: string)
    ensures t == "" || t[|t| - 1] != '/'
  {
    var stripped := Strip(storeUrl, IsSpace);
    RStrip(stripped, IsSlash)
  }

  /**
   * Trimming keeps exactly the core: the whitespace around the URL and the
   * run of `/` at its end are removed, and nothing else.
   */
  lemma TrimmedUrlOf(pre: string, core: string, slashes: string, post: string)
    requires forall k :: 0 <= k < |pre| ==> IsSpace(pre[k])
    requires forall k :: 0 <= k < |slashes| ==> IsSlash(slashes[k])
    requires forall k :: 0 <= k < |post| ==> IsSpace(post[k])
    requires core == "" || (!IsSpace(core[0]) && !IsSpace(core[|core| - 1]) && core[|core| - 1] != '/')
    ensures TrimmedUrl(pre + core + slashes + post) == core
  {
    var m := core + slashes;
    assert m != "" ==> m[0] == (if core != "" then core[0] else slashes[0]);
    assert m != "" ==> m[|m| - 1] == (if slashes != "" then slashes[|slashes| - 1] else core[|core| - 1]);
    assert pre + core + slashes + post == pre + m + post;
    StripOf(pre, m, post, IsSpace);
    RStripOf(core, slashes, IsSlash);
  }

  /** `store_url` trimmed, with `https://` put in front unless it starts with "http". */
  function BaseUrl(storeUrl: string): (r: string)
    ensures StartsWith(r, "http")
    ensures EndsWith(r, "/") <==> TrimmedUrl(storeUrl) == ""
  {
    var t := TrimmedUrl(storeUrl);
    WithScheme(t)
  }

  /**
   * The scheme rule: text that already starts with "http" is kept, anything
   * else gets `https://` in front; the result ends in '/' only when the text
   * was empty or ended in '/' itself.
   */
  function WithScheme(t: string): (r: string)
    ensures StartsWith(r, "http")
    ensures r == t <==> StartsWith(t, "http")
    ensures r == "https://" + t <==> !StartsWith(t, "http")
    ensures EndsWith(r, "/") <==> t == "" || t[|t| - 1] == '/'
  {
    var r := if StartsWith(t, "http") then t else "https://" + t;
    assert |"https://" + t| == |t| + 8;
    assert ("https://" + t)[..4] == "http";
    assert t != "" ==> r[|r| - 1] == t[|t| - 1];
    assert t == "" ==> r[|r| - 1] == '/';
    EndsWithLast(r, '/');
    r
  }

  /** A host that already starts with "http" is kept as it is, "httpfoo.com" included. */
  lemma HttpPrefixKept(rest: string)
    requires rest == "" || (!IsSpace(rest[|rest| - 1]) && rest[|rest| - 1] != '/')
    ensures BaseUrl("http" + rest) == "http" + rest
  {
    var s := "http" + rest;
    assert !IsSpace(s[0]) && !IsSpace(s[|s| - 1]);
    assert Strip(s, IsSpace) == s by {
      assert RStrip(s, IsSpace) == s;
      assert LStrip(s, IsSpace) == s;
    }
    assert RStrip(s, IsSlash) == s;
    assert s[..4] == "http";
  }

  function ScrapeRequest(storeUrl: string, limit: int): Request {
    Request(BaseUrl(storeUrl) + "/products.json?limit=" + IntToString(limit), [], SCRAPER_TIMEOUT)
  }

  /** `v.get("inventory_quantity", "N/A")`. */
  function InventoryOf(v: Variant): Inventory {
    match v.inventoryQuantity
    case Absent => NotAvailable
    case Null => NoQuantity
    case Present(n) => Quantity(n)
  }

  /** `(p.get("variants") or [{}])[0]`: a missing, `null` or empty list reads as `[{}]`. */
  function FirstVariant(p: Product): Variant {
    if p.variants.Present? && p.variants.value != [] then p.variants.value[0] else EMPTY_VARIANT
  }

  /** The record the comprehension builds for one product. */
  function Record(p: Product): (r: ProductRecord)
    ensures r.title == Get(p.title) && r.handle == Get(p.handle)
    ensures r.productType == Get(p.productType) && r.vendor == Get(p.vendor)
    ensures p.variants.Present? && p.variants.value != [] ==>
      r.price == Get(p.variants.value[0].price) && r.inventory == InventoryOf(p.variants.value[0])
    ensures !(p.variants.Present? && p.variants.value != []) ==>
      r.price == None && r.inventory == NotAvailable
  {
    var v := FirstVariant(p);
    ProductRecord(Get(p.title), Get(v.price), InventoryOf(v), Get(p.handle), Get(p.productType), Get(p.vendor))
  }

  function Records(ps: seq<Product>): (rs: seq<ProductRecord>)
    ensures |rs| == |ps|
    ensures forall i :: 0 <= i < |ps| ==> rs[i] == Record(ps[i])
  {
    seq(|ps|, i requires 0 <= i < |ps| => Record(ps[i]))
  }

  /** `public_shopify_scraper(store_url, limit)`. */
  function PublicShopifyScraper(storeUrl: string, limit: int, fetch: Fetch): Result<Scrape, Failure> {
    ScrapeOf(FetchJson(fetch, ScrapeRequest(storeUrl, limit), false))
  }

  /** The scraper once the listing has been fetched and decoded. */
  function ScrapeOf(listing: Result<Body, Failure>): Result<Scrape, Failure> {
    var body :- listing;
    var products :- Items(body.products);
    Ok(Scrape(SCRAPE_MODE, Records(products), SCRAPE_NOTE))
  }

  /**
   * Whatever the status, a decoded listing gives one record per product in
   * listing order, marked public and carrying the fixed note; a `null`
   * listing raises, a missing one gives no records.
   */
  lemma ScrapeOfListing(storeUrl: string, limit: int, fetch: Fetch, resp: Response, body: Body)
    requires fetch(ScrapeRequest(storeUrl, limit)) == Ok(resp) && resp.body == Ok(body)
    ensures var r := PublicShopifyScraper(storeUrl, limit, fetch);
      && (body.products.Null? ==> r == Err(NotIterable))
      && (body.products.Absent? ==> r == Ok(Scrape(SCRAPE_MODE, [], SCRAPE_NOTE)))
      && (body.products.Present? ==>
            && r.Ok? && r.value.mode == SCRAPE_MODE && r.value.note == SCRAPE_NOTE
            && |r.value.products| == |body.products.value|
            && forall i :: 0 <= i < |body.products.value| ==>
                 r.value.products[i] == Record(body.products.value[i]))
  {
    assert FetchJson(fetch, ScrapeRequest(storeUrl, limit), false) == Ok(body);
  }

  /** The scraper issues one request, to the normalised URL, and depends on nothing else. */
  lemma ScraperFetchesOnlyListing(storeUrl: string, limit: int, f: Fetch, g: Fetch)
    requires f(ScrapeRequest(storeUrl, limit)) == g(ScrapeRequest(storeUrl, limit))
    ensures PublicShopifyScraper(storeUrl, limit, f) == PublicShopifyScraper(storeUrl, limit, g)
  {
    ScrapeDepends(f, g, ScrapeRequest(storeUrl, limit));
  }

  lemma ScrapeDepends(f: Fetch, g: Fetch, req: Request)
    requires f(req) == g(req)
    ensures ScrapeOf(FetchJson(f, req, false)) == ScrapeOf(FetchJson(g, req, false))
  {
    assert FetchJson(f, req, false) == FetchJson(g, req, false);
  }
}
