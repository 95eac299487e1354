/**
 * The storefront's records as the Shopify JSON endpoints return them, the
 * HTTP exchange, and the Python exceptions the report code can run into.
 *
 * A JSON object reaches the Python code as a dict, so each field may be
 * missing, present with `null`, or present with a value; `Field` keeps the
 * three apart because `d[key]`, `d.get(key)` and `d.get(key, default)` treat
 * them differently.
 */
module Storefront {
  import opened Wrappers
  import opened PyStrings

  datatype Field<+T> = Absent | Null | Present(value: T)

  /** `d.get(key)`: the value, or `None` for a missing key or a `null`. */
  function Get<T>(f: Field<T>): (r: Option<T>)
    ensures r.Some? <==> f.Present?
    ensures f.Present? ==> r == Some(f.value)
  {
    match f
    case Present(v) => Some(v)
    case _ => None
  }

  /** `d[key]`: a missing key raises `KeyError(key)`; a `null` reads as `None`. */
  function Subscript<T>(f: Field<T>, key: string): (r: Result<Option<T>, Failure>)
    ensures r.Err? <==> f.Absent?
    ensures r.Err? ==> r.error == KeyError(key)
    ensures r.Ok? ==> r.value == Get(f)
  {
    match f
    case Absent => Err(KeyError(key))
    case Null => Ok(None)
    case Present(v) => Ok(Some(v))
  }

  /**
   * Iterating over `d.get(key, [])`: a missing list is empty, a `null` one
   * raises `TypeError`.
   */
  function Items<T>(f: Field<seq<T>>): (r: Result<seq<T>, Failure>)
    ensures r.Err? <==> f.Null?
    ensures r.Err? ==> r.error == NotIterable
    ensures r.Ok? ==> r.value == (if f.Present? then f.value else [])
  {
    match f
    case Absent => Ok([])
    case Null => Err(NotIterable)
    case Present(xs) => Ok(xs)
  }

  /** `str(x)` of a value that may be `None`, as an f-string renders it. */
  function PyStr(x: Option<string>): string {
    match x
    case None => "None"
    case Some(s) => s
  }

  datatype Variant = Variant(
    title: Field<string>,
    price: Field<string>,
    inventoryQuantity: Field<int>)

  /** The empty dict `{}`: a variant with no fields at all. */
  const EMPTY_VARIANT := Variant(Absent, Absent, Absent)

  datatype Product = Product(
    title: Field<string>,
    handle: Field<string>,
    vendor: Field<string>,
    productType: Field<string>,
    variants: Field<seq<Variant>>)

  datatype Order = Order(totalPrice: Field<string>)

  /** The keys of a decoded response body that the report code reads. */
  datatype Body = Body(products: Field<seq<Product>>, orders: Field<seq<Order>>)

  /**
   * An HTTP request: the URL, the headers passed (a header whose value is a
   * missing configuration entry is passed as `None`), and the timeout in seconds.
   */
  datatype Request = Request(url: string, headers: seq<(string, Option<string>)>, timeout: int)

  /** A response: its status line, and the outcome of `resp.json()`. */
  datatype Response = Response(status: int, reason: string, body: Result<Body, string>)

  /**
   * What the HTTP layer hands back for a request: a response, or the message
   * of the exception `requests.get` raised (connection failure, timeout).
   */
  type Fetch = Request -> Result<Response, string>

  /** The exceptions of the report code, each with what `str(e)` gives. */
  datatype Failure =
    | KeyError(key: string)
    | NotIterable
    | FloatFromNone
    | FloatFromText(text: string)
    | HttpStatus(status: int, reason: string, url: string)
    | Transport(message: string)
    | InvalidJson(message: string)

  function Message(f: Failure): string {
    match f
    case KeyError(k) => Repr(k)
    case NotIterable => "'NoneType' object is not iterable"
    case FloatFromNone => "float() argument must be a string or a real number, not 'NoneType'"
    case FloatFromText(t) => "could not convert string to float: " + Repr(t)
    case HttpStatus(s, r, u) =>
      IntToString(s) + (if s < 500 then " Client Error: " else " Server Error: ") + r + " for url: " + u
    case Transport(m) => m
    case InvalidJson(m) => m
  }

  /**
   * `str(KeyError(k))` and the message of `float(t)` show the text as `repr`
   * does: printable text without quotes or backslashes between single quotes.
   */
  lemma MessageOfPlainText(t: string)
    requires forall i :: 0 <= i < |t| ==> PlainChar(t[i]) && t[i] != '\'' && t[i] != '"'
    ensures Message(KeyError(t)) == "'" + t + "'"
    ensures Message(FloatFromText(t)) == "could not convert string to float: '" + t + "'"
  {
    ReprPlain(t);
  }

  /** A price text holding a `'` (and no `"`) is shown between double quotes. */
  lemma MessageOfApostropheText(t: string, k: nat)
    requires k < |t| && t[k] == '\''
    requires forall i :: 0 <= i < |t| ==> PlainChar(t[i]) && t[i] != '"'
    ensures Message(FloatFromText(t)) == "could not convert string to float: \"" + t + "\""
  {
    ReprApostrophe(t, k);
  }

  /** `resp.raise_for_status()`: statuses 400 to 599 raise `HTTPError`. */
  function RaiseForStatus(resp: Response, url: string): (r: Result<Response, Failure>)
    ensures r.Err? <==> 400 <= resp.status < 600
    ensures r.Ok? ==> r.value == resp
    ensures r.Err? ==> r.error == HttpStatus(resp.status, resp.reason, url)
  {
    if 400 <= resp.status < 600 then Err(HttpStatus(resp.status, resp.reason, url)) else Ok(resp)
  }

  /** `requests.get(...)` followed by `.json()`. */
  function FetchJson(fetch: Fetch, req: Request, checkStatus: bool): (r: Result<Body, Failure>)
    ensures fetch(req).Err? ==> r == Err(Transport(fetch(req).error))
    ensures fetch(req).Ok? && checkStatus && 400 <= fetch(req).value.status < 600 ==>
      r == Err(HttpStatus(fetch(req).value.status, fetch(req).value.reason, req.url))
    ensures fetch(req).Ok? && !(checkStatus && 400 <= fetch(req).value.status < 600) ==>
      r == (match fetch(req).value.body
            case Ok(b) => Ok(b)
            case Err(m) => Err(InvalidJson(m)))
  {
    match fetch(req)
    case Err(m) => Err(Transport(m))
    case Ok(resp) =>
      var checked :- if checkStatus then RaiseForStatus(resp, req.url) else Ok(resp);
      match checked.body
      case Err(m) => Err(InvalidJson(m))
      case Ok(b) => Ok(b)
  }
}
