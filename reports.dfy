/**
 * `ecommerce_agent`: the store report, in public mode (the storefront's open
 * `products.json`) or private mode (the admin API, orders and products).
 * The HTTP calls are the `fetch` parameter; everything after them (top
 * products, low-inventory alerts, sales total, report shape, and turning
 * any exception into an error payload) is modelled here.
 */
module Reports {
  import opened Wrappers
  import opened PyStrings
  import opened Storefront

  /** A variant with fewer units than this in stock raises an alert. */
  const LOW_STOCK_THRESHOLD := 10
  const PUBLIC_SALES_MARKER := "N/A (not accessible in public mode)"
  const ERROR_PREFIX := "Shopify API error: "
  const API_VERSION := "2024-07"
  const ACCESS_TOKEN_HEADER := "X-Shopify-Access-Token"
  /** Seconds `requests.get` waits in `ecommerce_agent`. */
  const REQUEST_TIMEOUT := 10

  datatype Mode = Public | Private

  /** `total_sales`: a text marker in public mode, a sum in cents in private mode. */
  datatype Sales = Marker(text: string) | Total(cents: int)

  /** The dict `ecommerce_agent` returns: a full report, or only an `error` entry. */
  datatype Payload =
    | Report(mode: Mode, store: Option<string>, totalSales: Sales,
             topProducts: seq<Option<string>>, inventoryAlerts: seq<string>)
    | ErrorPayload(error: string)

  /** `SHOPIFY_STORE_URL` and `SHOPIFY_ACCESS_TOKEN`; either may be unset. */
  datatype Config = Config(storeUrl: Option<string>, accessToken: Option<string>)

  // ----- top products -----

  /** `[p["title"] for p in products]`. */
  function TopProducts(ps: seq<Product>): (r: Result<seq<Option<string>>, Failure>)
    ensures r.Ok? <==> forall i :: 0 <= i < |ps| ==> !ps[i].title.Absent?
    ensures r.Ok? ==> |r.value| == |ps|
    ensures r.Ok? ==> forall i :: 0 <= i < |ps| ==> r.value[i] == Get(ps[i].title)
    ensures r.Err? ==> r.error == KeyError("title")
  {
    if ps == [] then Ok([])
    else
      var t :- Subscript(ps[0].title, "title");
      var rest :- TopProducts(ps[1..]);
      assert forall i :: 1 <= i < |ps| ==> ps[1..][i - 1] == ps[i];
      Ok([t] + rest)
  }

  // ----- low-inventory alerts -----

  /** `qty is not None and qty < 10`, with `qty = v.get("inventory_quantity")`. */
  predicate IsLow(v: Variant) {
    v.inventoryQuantity.Present? && v.inventoryQuantity.value < LOW_STOCK_THRESHOLD
  }

  /** `f"{p['title']} (variant {v['title']}) low: {qty} left"`. */
  function AlertText(product: Option<string>, variant: Option<string>, qty: int): string {
    PyStr(product) + " (variant " + PyStr(variant) + ") low: " + IntToString(qty) + " left"
  }

  /** The alerts one product's variants `vs` append, in variant order. */
  function VariantAlerts(title: Field<string>, vs: seq<Variant>): Result<seq<string>, Failure>
    decreases |vs|
  {
    if vs == [] then Ok([])
    else
      var before :- VariantAlerts(title, vs[..|vs| - 1]);
      var v := vs[|vs| - 1];
      if IsLow(v) then
        var pt :- Subscript(title, "title");
        var vt :- Subscript(v.title, "title");
        Ok(before + [AlertText(pt, vt, v.inventoryQuantity.value)])
      else
        Ok(before)
  }

  /** `for v in p.get("variants", []): ...`. */
  function ProductAlerts(p: Product): Result<seq<string>, Failure> {
    var vs :- Items(p.variants);
    VariantAlerts(p.title, vs)
  }

  /** The whole nested loop: products in order, each product's variants in order. */
  function Alerts(ps: seq<Product>): Result<seq<string>, Failure>
    decreases |ps|
  {
    if ps == [] then Ok([])
    else
      var before :- Alerts(ps[..|ps| - 1]);
      var mine :- ProductAlerts(ps[|ps| - 1]);
      Ok(before + mine)
  }

  /**
   * The nested loop of `ecommerce_agent`, appending to one list. It stops at
   * the first exception, which the caller turns into an error payload.
   */
  method InventoryAlerts(products: seq<Product>) returns (r: Result<seq<string>, Failure>)
    ensures r == Alerts(products)
  {
    var alerts: seq<string> := [];
    var i := 0;
    while i < |products|
      invariant 0 <= i <= |products|
      invariant Alerts(products[..i]) == Ok(alerts)
    {
      var p := products[i];
      if p.variants.Null? {
        AlertsStepError(products, i, NotIterable);
        return Err(NotIterable);
      }
      var vs := if p.variants.Present? then p.variants.value else [];
      ghost var before := alerts;
      var inner := AppendVariantAlerts(p.title, vs, alerts);
      if inner.Err? {
        AlertsStepError(products, i, inner.error);
        return Err(inner.error);
      }
      alerts := inner.value;
      AlertsStep(products, i, before, VariantAlerts(p.title, vs).value);
      i := i + 1;
    }
    assert products[..i] == products;
    r := Ok(alerts);
  }

  /** The inner loop: one product's variants, appended to the alerts gathered so far. */
  method AppendVariantAlerts(title: Field<string>, vs: seq<Variant>, alerts0: seq<string>)
    returns (r: Result<seq<string>, Failure>)
    ensures VariantAlerts(title, vs).Ok? ==> r == Ok(alerts0 + VariantAlerts(title, vs).value)
    ensures VariantAlerts(title, vs).Err? ==> r == Err(VariantAlerts(title, vs).error)
  {
    var alerts := alerts0;
    var j := 0;
    while j < |vs|
      invariant 0 <= j <= |vs|
      invariant VariantAlerts(title, vs[..j]).Ok?
      invariant alerts == alerts0 + VariantAlerts(title, vs[..j]).value
    {
      var v := vs[j];
      VariantAlertsStep(title, vs, j);
      var qty := Get(v.inventoryQuantity);
      if qty.Some? && qty.value < LOW_STOCK_THRESHOLD {
        if title.Absent? || v.title.Absent? {
          VariantAlertsPrefixError(title, vs, j + 1);
          return Err(KeyError("title"));
        }
        alerts := alerts + [AlertText(Get(title), Get(v.title), qty.value)];
      }
      j := j + 1;
    }
    assert vs[..j] == vs;
    r := Ok(alerts);
  }

  /** One more variant: the alerts so far, plus its line when it is low. */
  lemma VariantAlertsStep(title: Field<string>, vs: seq<Variant>, j: nat)
    requires j < |vs|
    ensures VariantAlerts(title, vs[..j + 1]) ==
      (var before :- VariantAlerts(title, vs[..j]);
       if IsLow(vs[j]) then
         var pt :- Subscript(title, "title");
         var vt :- Subscript(vs[j].title, "title");
         Ok(before + [AlertText(pt, vt, vs[j].inventoryQuantity.value)])
       else Ok(before))
  {
    assert vs[..j + 1][..j] == vs[..j];
  }

  /** One more product: the alerts so far, plus its own. */
  lemma AlertsStep(ps: seq<Product>, i: nat, before: seq<string>, mine: seq<string>)
    requires i < |ps| && Alerts(ps[..i]) == Ok(before) && ProductAlerts(ps[i]) == Ok(mine)
    ensures Alerts(ps[..i + 1]) == Ok(before + mine)
  {
    assert ps[..i + 1][..i] == ps[..i];
  }

  /** A product whose alerts raise makes the whole loop raise the same exception. */
  lemma AlertsStepError(ps: seq<Product>, i: nat, e: Failure)
    requires i < |ps| && Alerts(ps[..i]).Ok? && ProductAlerts(ps[i]) == Err(e)
    ensures Alerts(ps) == Err(e)
  {
    assert ps[..i + 1][..i] == ps[..i];
    AlertsPrefixError(ps, i + 1);
  }

  lemma {:induction false} VariantAlertsPrefixError(title: Field<string>, vs: seq<Variant>, k: nat)
    requires k <= |vs| && VariantAlerts(title, vs[..k]).Err?
    ensures VariantAlerts(title, vs) == VariantAlerts(title, vs[..k])
    decreases |vs|
  {
    if k < |vs| {
      var init := vs[..|vs| - 1];
      assert init[..k] == vs[..k];
      VariantAlertsPrefixError(title, init, k);
    } else {
      assert vs[..k] == vs;
    }
  }

  /** Once the loop has raised, the rest of the products do not matter. */
  lemma {:induction false} AlertsPrefixError(ps: seq<Product>, k: nat)
    requires k <= |ps| && Alerts(ps[..k]).Err?
    ensures Alerts(ps) == Alerts(ps[..k])
    decreases |ps|
  {
    if k < |ps| {
      var init := ps[..|ps| - 1];
      assert init[..k] == ps[..k];
      AlertsPrefixError(init, k);
    } else {
      assert ps[..k] == ps;
    }
  }

  // ----- a reference reading of the alerts: flatten, filter, render -----

  function VariantsOf(p: Product): seq<Variant> {
    if p.variants.Present? then p.variants.value else []
  }

  function VariantPairs(p: Product, vs: seq<Variant>): (r: seq<(Product, Variant)>)
    ensures |r| == |vs|
  {
    seq(|vs|, j requires 0 <= j < |vs| => (p, vs[j]))
  }

  /** Every (product, variant) pair, product-then-variant order. */
  function AllPairs(ps: seq<Product>): seq<(Product, Variant)>
    decreases |ps|
  {
    if ps == [] then [] else VariantPairs(ps[0], VariantsOf(ps[0])) + AllPairs(ps[1..])
  }

  /** The pairs whose variant is low on stock, order kept. */
  function LowPairs(pairs: seq<(Product, Variant)>): seq<(Product, Variant)>
    decreases |pairs|
  {
    if pairs == [] then []
    else (if IsLow(pairs[0].1) then [pairs[0]] else []) + LowPairs(pairs[1..])
  }

  function QuantityOf(v: Variant): int {
    if v.inventoryQuantity.Present? then v.inventoryQuantity.value else 0
  }

  function Lines(pairs: seq<(Product, Variant)>): (r: seq<string>)
    ensures |r| == |pairs|
  {
    seq(|pairs|, i requires 0 <= i < |pairs| =>
      AlertText(Get(pairs[i].0.title), Get(pairs[i].1.title), QuantityOf(pairs[i].1)))
  }

  /** The loop runs to the end: no `null` variant list, no title missing where it is read. */
  predicate AlertsDefined(ps: seq<Product>) {
    forall i :: 0 <= i < |ps| ==> ProductAlertsDefined(ps[i])
  }

  predicate ProductAlertsDefined(p: Product) {
    !p.variants.Null? && VariantAlertsDefined(p.title, VariantsOf(p))
  }

  predicate VariantAlertsDefined(title: Field<string>, vs: seq<Variant>) {
    forall j :: 0 <= j < |vs| && IsLow(vs[j]) ==> !title.Absent? && !vs[j].title.Absent?
  }

  lemma {:induction false} LowPairsAppend(a: seq<(Product, Variant)>, b: seq<(Product, Variant)>)
    ensures LowPairs(a + b) == LowPairs(a) + LowPairs(b)
    decreases |a|
  {
    if a != [] {
      assert (a + b)[1..] == a[1..] + b;
      LowPairsAppend(a[1..], b);
    } else {
      assert a + b == b;
    }
  }

  lemma {:induction false} AllPairsSnoc(ps: seq<Product>, p: Product)
    ensures AllPairs(ps + [p]) == AllPairs(ps) + VariantPairs(p, VariantsOf(p))
    decreases |ps|
  {
    if ps != [] {
      assert (ps + [p])[1..] == ps[1..] + [p];
      AllPairsSnoc(ps[1..], p);
    } else {
      assert [p][1..] == [];
    }
  }

  lemma LinesAppend(a: seq<(Product, Variant)>, b: seq<(Product, Variant)>)
    ensures Lines(a + b) == Lines(a) + Lines(b)
  {
  }

  lemma {:induction false} VariantAlertsMatch(p: Product, vs: seq<Variant>)
    ensures VariantAlerts(p.title, vs).Ok? <==> VariantAlertsDefined(p.title, vs)
    ensures VariantAlerts(p.title, vs).Ok? ==>
      VariantAlerts(p.title, vs).value == Lines(LowPairs(VariantPairs(p, vs)))
    ensures VariantAlerts(p.title, vs).Err? ==> VariantAlerts(p.title, vs).error == KeyError("title")
    decreases |vs|
  {
    if vs != [] {
      var init, v := vs[..|vs| - 1], vs[|vs| - 1];
      VariantAlertsMatch(p, init);
      assert VariantAlertsDefined(p.title, vs) <==>
        VariantAlertsDefined(p.title, init) && (IsLow(v) ==> !p.title.Absent? && !v.title.Absent?)
      by {
        assert forall j :: 0 <= j < |init| ==> vs[j] == init[j];
      }
      if VariantAlerts(p.title, init).Ok? {
        var before := VariantAlerts(p.title, init).value;
        assert VariantPairs(p, vs) == VariantPairs(p, init) + [(p, v)];
        LowPairsAppend(VariantPairs(p, init), [(p, v)]);
        LinesAppend(LowPairs(VariantPairs(p, init)), LowPairs([(p, v)]));
        if !IsLow(v) {
          assert LowPairs([(p, v)]) == [];
          assert VariantAlerts(p.title, vs) == Ok(before);
        } else if !p.title.Absent? && !v.title.Absent? {
          assert LowPairs([(p, v)]) == [(p, v)];
          var line := AlertText(Get(p.title), Get(v.title), v.inventoryQuantity.value);
          assert Lines([(p, v)]) == [line];
          assert VariantAlerts(p.title, vs) == Ok(before + [line]);
        }
      }
    }
  }

  /**
   * The alerts are exactly one line per low-stock (product, variant) pair, in
   * product-then-variant order, and the loop raises iff a variant list is
   * `null` or a title it needs is missing.
   */
  lemma {:induction false} AlertsMatchLowStock(ps: seq<Product>)
    ensures Alerts(ps).Ok? <==> AlertsDefined(ps)
    ensures Alerts(ps).Ok? ==> Alerts(ps).value == Lines(LowPairs(AllPairs(ps)))
    ensures Alerts(ps).Err? ==> Alerts(ps).error == KeyError("title") || Alerts(ps).error == NotIterable
    decreases |ps|
  {
    if ps != [] {
      var init, p := ps[..|ps| - 1], ps[|ps| - 1];
      assert ps == init + [p];
      AlertsMatchLowStock(init);
      VariantAlertsMatch(p, VariantsOf(p));
      assert AlertsDefined(ps) <==> AlertsDefined(init) && ProductAlertsDefined(p) by {
        assert forall i :: 0 <= i < |init| ==> ps[i] == init[i];
      }
      if Alerts(init).Ok? && ProductAlerts(p).Ok? {
        assert ProductAlerts(p) == VariantAlerts(p.title, VariantsOf(p));
        AllPairsSnoc(init, p);
        LowPairsAppend(AllPairs(init), VariantPairs(p, VariantsOf(p)));
        LinesAppend(LowPairs(AllPairs(init)), LowPairs(VariantPairs(p, VariantsOf(p))));
        assert Alerts(ps) == Ok(Alerts(init).value + ProductAlerts(p).value);
      }
    }
  }

  /** The number of alerts is the number of low-stock variants. */
  lemma AlertCount(ps: seq<Product>)
    requires Alerts(ps).Ok?
    ensures |Alerts(ps).value| == |LowPairs(AllPairs(ps))|
  {
    AlertsMatchLowStock(ps);
  }

  /** A product without variants adds no alert, wherever it stands. */
  lemma {:induction false} NoVariantsNoAlerts(a: seq<Product>, p: Product, b: seq<Product>)
    requires p.variants == Absent || p.variants == Present([])
    ensures Alerts(a + [p] + b) == Alerts(a + b)
    decreases |b|
  {
    assert ProductAlerts(p) == Ok([]) by {
      assert VariantsOf(p) == [];
    }
    if b == [] {
      assert (a + [p])[..|a|] == a;
      assert a + [p] + b == a + [p] && a + b == a;
      if Alerts(a).Ok? {
        assert Alerts(a).value + [] == Alerts(a).value;
      }
    } else {
      var init := b[..|b| - 1];
      NoVariantsNoAlerts(a, p, init);
      assert (a + [p] + b)[..|a + [p] + b| - 1] == a + [p] + init;
      assert (a + b)[..|a + b| - 1] == a + init;
    }
  }

  /** A one-product, one-variant listing raises the alert iff the variant is low. */
  lemma SingleVariantAlerts(title: string, v: Variant)
    requires v.title.Present?
    ensures Alerts([Product(Present(title), Absent, Absent, Absent, Present([v]))])
         == Ok(if IsLow(v) then [AlertText(Some(title), Some(v.title.value), v.inventoryQuantity.value)]
               else [])
  {
    var p := Product(Present(title), Absent, Absent, Absent, Present([v]));
    assert [v][..0] == [] && [p][..0] == [];
    assert Items(p.variants) == Ok([v]);
    assert VariantAlerts(Present(title), []) == Ok([]);
    var va := VariantAlerts(Present(title), [v]);
    if IsLow(v) {
      assert Subscript(Present(title), "title") == Ok(Some(title));
      assert Subscript(v.title, "title") == Ok(Some(v.title.value));
      var line := AlertText(Some(title), Some(v.title.value), v.inventoryQuantity.value);
      assert va == Ok([] + [line]);
      assert [] + [line] == [line];
    } else {
      assert va == Ok([]);
    }
    assert ProductAlerts(p) == va;
    assert Alerts([]) == Ok([]);
    assert Alerts([p]) == Ok([] + va.value);
    assert [] + va.value == va.value;
  }

  /** The threshold, from below: 9 units raise the alert "t (variant v) low: 9 left". */
  lemma AlertAtNine(title: string, variant: string)
    ensures Alerts([Product(Present(title), Absent, Absent, Absent,
                            Present([Variant(Present(variant), Absent, Present(9))]))])
         == Ok([title + " (variant " + variant + ") low: 9 left"])
  {
    var v := Variant(Present(variant), Absent, Present(9));
    var line := AlertText(Some(title), Some(variant), 9);
    assert Alerts([Product(Present(title), Absent, Absent, Absent, Present([v]))]) == Ok([line]) by {
      SingleVariantAlerts(title, v);
      assert IsLow(v);
    }
    assert line == title + " (variant " + variant + ") low: 9 left" by {
      assert IntToString(9) == "9";
    }
  }

  /** An empty stock raises "t (variant v) low: 0 left". */
  lemma AlertAtZero(title: string, variant: string)
    ensures Alerts([Product(Present(title), Absent, Absent, Absent,
                            Present([Variant(Present(variant), Absent, Present(0))]))])
         == Ok([title + " (variant " + variant + ") low: 0 left"])
  {
    var v := Variant(Present(variant), Absent, Present(0));
    var line := AlertText(Some(title), Some(variant), 0);
    assert Alerts([Product(Present(title), Absent, Absent, Absent, Present([v]))]) == Ok([line]) by {
      SingleVariantAlerts(title, v);
      assert IsLow(v);
    }
    assert line == title + " (variant " + variant + ") low: 0 left" by {
      assert IntToString(0) == "0";
    }
  }

  /** An oversold variant alerts with its negative count: "t (variant v) low: -3 left". */
  lemma AlertWhenOversold(title: string, variant: string)
    ensures Alerts([Product(Present(title), Absent, Absent, Absent,
                            Present([Variant(Present(variant), Absent, Present(-3))]))])
         == Ok([title + " (variant " + variant + ") low: -3 left"])
  {
    var v := Variant(Present(variant), Absent, Present(-3));
    var line := AlertText(Some(title), Some(variant), -3);
    assert Alerts([Product(Present(title), Absent, Absent, Absent, Present([v]))]) == Ok([line]) by {
      SingleVariantAlerts(title, v);
      assert IsLow(v);
    }
    assert line == title + " (variant " + variant + ") low: -3 left" by {
      assert NatToString(3) == "3" && IntToString(-3) == "-3";
    }
  }

  /** The threshold, from above: 10 units raise no alert, and neither does an unknown count. */
  lemma NoAlertAtTenOrUnknown(title: string, variant: string)
    ensures Alerts([Product(Present(title), Absent, Absent, Absent,
                            Present([Variant(Present(variant), Absent, Present(10))]))])
         == Ok([])
    ensures Alerts([Product(Present(title), Absent, Absent, Absent,
                            Present([Variant(Present(variant), Absent, Null)]))])
         == Ok([])
    ensures Alerts([Product(Present(title), Absent, Absent, Absent,
                            Present([Variant(Present(variant), Absent, Absent)]))])
         == Ok([])
  {
    SingleVariantAlerts(title, Variant(Present(variant), Absent, Present(10)));
    SingleVariantAlerts(title, Variant(Present(variant), Absent, Null));
    SingleVariantAlerts(title, Variant(Present(variant), Absent, Absent));
  }

  // ----- private-mode sales total -----

  /** `float(o.get("total_price", 0))`, in cents. */
  function OrderCents(o: Order): (r: Result<int, Failure>)
    ensures o.totalPrice.Absent? ==> r == Ok(0)
    ensures o.totalPrice.Null? ==> r == Err(FloatFromNone)
    ensures o.totalPrice.Present? ==>
      r == (if ParseCents(o.totalPrice.value).Some? then Ok(ParseCents(o.totalPrice.value).value)
            else Err(FloatFromText(o.totalPrice.value)))
  {
    match o.totalPrice
    case Absent => Ok(0)
    case Null => Err(FloatFromNone)
    case Present(s) =>
      match ParseCents(s)
      case Some(c) => Ok(c)
      case None => Err(FloatFromText(s))
  }

  /** The generator `(f(o) for o in orders)`, each amount computed in order. */
  function Amounts(orders: seq<Order>, f: Order -> Result<int, Failure>): (r: seq<Result<int, Failure>>)
    ensures |r| == |orders|
    ensures forall i :: 0 <= i < |orders| ==> r[i] == f(orders[i])
  {
    seq(|orders|, i requires 0 <= i < |orders| => f(orders[i]))
  }

  lemma AmountsAppend(a: seq<Order>, b: seq<Order>, f: Order -> Result<int, Failure>)
    ensures Amounts(a + b, f) == Amounts(a, f) + Amounts(b, f)
  {
  }

  /** Python's `sum` over a generator: add the amounts left to right, stop at the first exception. */
  function Sum(amounts: seq<Result<int, Failure>>): Result<int, Failure>
    decreases |amounts|
  {
    if amounts == [] then Ok(0)
    else
      var before :- Sum(amounts[..|amounts| - 1]);
      var c :- amounts[|amounts| - 1];
      Ok(before + c)
  }

  /** `sum(float(o.get("total_price", 0)) for o in orders)`, in cents. */
  function SalesTotal(orders: seq<Order>): Result<int, Failure> {
    Sum(Amounts(orders, OrderCents))
  }

  lemma {:induction false} SumAppend(a: seq<Result<int, Failure>>, b: seq<Result<int, Failure>>)
    ensures Sum(a + b) ==
      (if Sum(a).Err? then Sum(a)
       else if Sum(b).Err? then Err(Sum(b).error)
       else Ok(Sum(a).value + Sum(b).value))
    decreases |b|
  {
    if b == [] {
      assert a + b == a;
    } else {
      var init, last := b[..|b| - 1], b[|b| - 1];
      SumAppend(a, init);
      assert (a + b)[..|a + b| - 1] == a + init;
      assert (a + b)[|a + b| - 1] == last;
    }
  }

  /** The total of two batches of orders is the sum of their totals; the first failure wins. */
  lemma SalesTotalAppend(a: seq<Order>, b: seq<Order>)
    ensures SalesTotal(a + b) ==
      (if SalesTotal(a).Err? then SalesTotal(a)
       else if SalesTotal(b).Err? then Err(SalesTotal(b).error)
       else Ok(SalesTotal(a).value + SalesTotal(b).value))
  {
    var x, y := Amounts(a, OrderCents), Amounts(b, OrderCents);
    AmountsAppend(a, b, OrderCents);
    assert SalesTotal(a + b) == Sum(x + y);
    SumAppend(x, y);
  }

  /** One more order: the total so far plus its amount, unless either raises. */
  lemma SalesTotalSnoc(orders: seq<Order>, o: Order)
    ensures SalesTotal(orders + [o]) ==
      (var before :- SalesTotal(orders); var c :- OrderCents(o); Ok(before + c))
  {
    AmountsSnoc(orders, o, OrderCents);
  }

  lemma AmountsSnoc(orders: seq<Order>, o: Order, f: Order -> Result<int, Failure>)
    ensures Sum(Amounts(orders + [o], f)) ==
      (var before :- Sum(Amounts(orders, f)); var c :- f(o); Ok(before + c))
  {
    var x := Amounts(orders, f);
    assert Amounts(orders + [o], f) == x + [f(o)];
    SumSnoc(x, f(o));
  }

  lemma SumSnoc(amounts: seq<Result<int, Failure>>, x: Result<int, Failure>)
    ensures Sum(amounts + [x]) == (var before :- Sum(amounts); var c :- x; Ok(before + c))
  {
    assert (amounts + [x])[..|amounts|] == amounts;
  }

  /**
   * An order totalling `whole.frac`, one totalling a whole `n` and one with
   * no total add up to `whole.frac + n` (for instance "10.50", "5" and a
   * missing total make 15.50).
   */
  lemma SalesTotalOfThree(whole: string, frac: string, n: int)
    requires whole != "" && AllDigits(whole) && AllDigits(frac) && |frac| <= 2
    ensures SalesTotal([Order(Present(whole + "." + frac)), Order(Present(IntToString(n))), Order(Absent)])
         == Ok(ParseNat(whole) * 100 + FractionCents(frac) + n * 100)
  {
    var o1 := Order(Present(whole + "." + frac));
    var o2, o3 := Order(Present(IntToString(n))), Order(Absent);
    ParseCentsDecimal(whole, frac);
    ParseCentsWhole(n);
    assert OrderCents(o1) == Ok(ParseNat(whole) * 100 + FractionCents(frac));
    assert OrderCents(o2) == Ok(n * 100);
    assert OrderCents(o3) == Ok(0);
    SalesTotalSnoc([], o1);
    assert [] + [o1] == [o1];
    SalesTotalSnoc([o1], o2);
    assert [o1] + [o2] == [o1, o2];
    SalesTotalSnoc([o1, o2], o3);
    assert [o1, o2] + [o3] == [o1, o2, o3];
  }


  // ----- URLs and requests -----

  /** `store_url.replace("https://", "").replace("http://", "").strip("/")`. */
  function CleanUrl(storeUrl: string): (r: string)
    ensures r == "" || (r[0] != '/' && r[|r| - 1] != '/')
  {
    Strip(ReplaceAll(ReplaceAll(storeUrl, "https://", ""), "http://", ""), IsSlash)
  }

  /** A URL with either scheme loses it, and then its surrounding slashes. */
  lemma CleanUrlDropsScheme(scheme: string, rest: string)
    requires scheme == "https://" || scheme == "http://"
    requires forall i :: 0 <= i < |rest| ==> rest[i] != ':'
    ensures CleanUrl(scheme + rest) == Strip(rest, IsSlash)
  {
    var s := scheme + rest;
    NoColonNoOccurrence(rest, "https://", 5);
    NoColonNoOccurrence(rest, "http://", 4);
    ReplaceAllAbsent(rest, "https://", "");
    ReplaceAllAbsent(rest, "http://", "");
    if scheme == "https://" {
      assert s[..8] == "https://" && s[8..] == rest;
      assert ReplaceAll(s, "https://", "") == rest;
    } else {
      NoColonNoOccurrence(s, "https://", 5);
      ReplaceAllAbsent(s, "https://", "");
      assert s[..7] == "http://" && s[7..] == rest;
      assert ReplaceAll(s, "http://", "") == rest;
    }
  }

  /**
   * `http://<host>/` is cleaned to `<host>` and fetched as
   * `https://<host>/products.json?limit=<n>` (for instance `http://my-shop.com/`).
   */
  lemma CleanUrlOfHost(host: string, limit: int)
    requires host != "" && host[0] != '/' && host[|host| - 1] != '/'
    requires forall i :: 0 <= i < |host| ==> host[i] != ':'
    ensures CleanUrl("http://" + host + "/") == host
    ensures PublicRequest(CleanUrl("http://" + host + "/"), limit).url
         == "https://" + host + "/products.json?limit=" + IntToString(limit)
  {
    var rest := host + "/";
    assert "http://" + host + "/" == "http://" + rest;
    CleanUrlDropsScheme("http://", rest);
    StripTrailingSlash(host);
  }

  /** A host with no slash at either end, followed by one slash, strips back to the host. */
  lemma StripTrailingSlash(host: string)
    requires host != "" && host[0] != '/' && host[|host| - 1] != '/'
    ensures Strip(host + "/", IsSlash) == host
  {
    var rest := host + "/";
    assert rest[..|rest| - 1] == host;
    assert RStrip(rest, IsSlash) == RStrip(host, IsSlash);
    assert RStrip(host, IsSlash) == host;
    assert LStrip(host, IsSlash) == host;
  }

  /** The public-mode request: `https://{clean_url}/products.json?limit={limit}`, no headers. */
  function PublicRequest(cleanUrl: string, limit: int): Request {
    Request("https://" + cleanUrl + "/products.json?limit=" + IntToString(limit), [], REQUEST_TIMEOUT)
  }

  function AdminHeaders(config: Config): seq<(string, Option<string>)> {
    [(ACCESS_TOKEN_HEADER, config.accessToken)]
  }

  /** `https://{SHOPIFY_STORE_URL}/admin/api/2024-07/`, the start of both admin URLs. */
  function AdminBase(config: Config): string {
    "https://" + PyStr(config.storeUrl) + "/admin/api/" + API_VERSION + "/"
  }

  function OrdersRequest(config: Config, limit: int): Request {
    Request(AdminBase(config) + ("orders.json?limit=" + IntToString(limit) + "&status=any"),
            AdminHeaders(config), REQUEST_TIMEOUT)
  }

  function ProductsRequest(config: Config, limit: int): Request {
    Request(AdminBase(config) + ("products.json?limit=" + IntToString(limit)),
            AdminHeaders(config), REQUEST_TIMEOUT)
  }

  /**
   * Only the admin requests carry the access token; public mode sends no
   * header. The orders and products requests go to different endpoints of
   * the same store, and every request waits `REQUEST_TIMEOUT` seconds.
   */
  lemma RequestHeaders(cleanUrl: string, config: Config, limit: int)
    ensures PublicRequest(cleanUrl, limit).headers == []
    ensures OrdersRequest(config, limit).headers == [(ACCESS_TOKEN_HEADER, config.accessToken)]
    ensures ProductsRequest(config, limit).headers == [(ACCESS_TOKEN_HEADER, config.accessToken)]
    ensures OrdersRequest(config, limit).url != ProductsRequest(config, limit).url
    ensures PublicRequest(cleanUrl, limit).timeout == OrdersRequest(config, limit).timeout
         == ProductsRequest(config, limit).timeout == REQUEST_TIMEOUT
  {
    AdminUrlsDiffer(AdminBase(config), "orders.json?limit=" + IntToString(limit) + "&status=any",
                    "products.json?limit=" + IntToString(limit));
  }

  lemma AdminUrlsDiffer(base: string, a: string, b: string)
    requires a != [] && b != [] && a[0] != b[0]
    ensures base + a != base + b
  {
    assert (base + a)[|base|] == a[0];
    assert (base + b)[|base|] == b[0];
  }

  // ----- the report -----

  /** `public_mode and store_url`: the flag is set and the URL is a non-empty string. */
  predicate UsesPublicMode(publicMode: bool, storeUrl: Option<string>) {
    publicMode && storeUrl.Some? && storeUrl.value != ""
  }

  function PublicReport(storeUrl: string, limit: int, fetch: Fetch): Result<Payload, Failure> {
    var clean := CleanUrl(storeUrl);
    PublicReportOf(clean, FetchJson(fetch, PublicRequest(clean, limit), true))
  }

  /** The public branch once the listing has been fetched and decoded. */
  function PublicReportOf(clean: string, listing: Result<Body, Failure>): Result<Payload, Failure> {
    var body :- listing;
    var products :- Items(body.products);
    var top :- TopProducts(products);
    var alerts :- Alerts(products);
    Ok(Report(Public, Some(clean), Marker(PUBLIC_SALES_MARKER), top, alerts))
  }

  function PrivateReport(limit: int, config: Config, fetch: Fetch): Result<Payload, Failure> {
    PrivateReportOf(config, FetchJson(fetch, OrdersRequest(config, limit), false),
                    FetchJson(fetch, ProductsRequest(config, limit), false))
  }

  /**
   * The private branch once both answers are in; the orders are looked at
   * first, so their failures come first.
   */
  function PrivateReportOf(config: Config, ordersListing: Result<Body, Failure>,
                           productsListing: Result<Body, Failure>): Result<Payload, Failure>
  {
    var ordersBody :- ordersListing;
    var orders :- Items(ordersBody.orders);
    var total :- SalesTotal(orders);
    var productsBody :- productsListing;
    var products :- Items(productsBody.products);
    var top :- TopProducts(products);
    var alerts :- Alerts(products);
    Ok(Report(Private, config.storeUrl, Total(total), top, alerts))
  }

  /** The `except Exception as e` clause. */
  function ToPayload(r: Result<Payload, Failure>): Payload {
    match r
    case Ok(p) => p
    case Err(f) => ErrorPayload(ERROR_PREFIX + Message(f))
  }

  /** What `ecommerce_agent(store_url, limit, public_mode)` returns. */
  function EcommercePayload(storeUrl: Option<string>, limit: int, publicMode: bool,
                            config: Config, fetch: Fetch): Payload
  {
    ToPayload(if UsesPublicMode(publicMode, storeUrl) then PublicReport(storeUrl.value, limit, fetch)
              else PrivateReport(limit, config, fetch))
  }

  /** The product list a request's decoded answer holds, `resp.json().get("products", [])`. */
  function DecodedProducts(fetch: Fetch, req: Request, checkStatus: bool): Result<seq<Product>, Failure> {
    var body :- FetchJson(fetch, req, checkStatus);
    Items(body.products)
  }

  /** The order list a request's decoded answer holds, `....json().get("orders", [])`. */
  function DecodedOrders(fetch: Fetch, req: Request): Result<seq<Order>, Failure> {
    var body :- FetchJson(fetch, req, false);
    Items(body.orders)
  }

  method PublicAgent(storeUrl: string, limit: int, fetch: Fetch) returns (r: Result<Payload, Failure>)
    ensures r == PublicReport(storeUrl, limit, fetch)
  {
    var clean := CleanUrl(storeUrl);
    var body :- FetchJson(fetch, PublicRequest(clean, limit), true);
    var products :- Items(body.products);
    var top :- TopProducts(products);
    var alerts :- InventoryAlerts(products);
    return Ok(Report(Public, Some(clean), Marker(PUBLIC_SALES_MARKER), top, alerts));
  }

  method PrivateAgent(limit: int, config: Config, fetch: Fetch) returns (r: Result<Payload, Failure>)
    ensures r == PrivateReport(limit, config, fetch)
  {
    var ordersBody :- FetchJson(fetch, OrdersRequest(config, limit), false);
    var orders :- Items(ordersBody.orders);
    var total :- SalesTotal(orders);
    var productsBody :- FetchJson(fetch, ProductsRequest(config, limit), false);
    var products :- Items(productsBody.products);
    var top :- TopProducts(products);
    var alerts :- InventoryAlerts(products);
    return Ok(Report(Private, config.storeUrl, Total(total), top, alerts));
  }

  /** `ecommerce_agent`: choose the mode, run it, and catch every exception. */
  method EcommerceAgent(storeUrl: Option<string>, limit: int, publicMode: bool,
                        config: Config, fetch: Fetch) returns (payload: Payload)
    ensures payload == EcommercePayload(storeUrl, limit, publicMode, config, fetch)
  {
    var outcome: Result<Payload, Failure>;
    if publicMode && storeUrl.Some? && storeUrl.value != "" {
      outcome := PublicAgent(storeUrl.value, limit, fetch);
    } else {
      outcome := PrivateAgent(limit, config, fetch);
    }
    match outcome {
      case Ok(p) => payload := p;
      case Err(f) => payload := ErrorPayload(ERROR_PREFIX + Message(f));
    }
  }

  // ----- properties of the report -----

  /**
   * A public-mode report names the cleaned URL as its store and carries the
   * fixed sales marker, whatever the products; a private-mode report names
   * the configured store and a sum. Any failure gives only the error text.
   */
  lemma ReportShape(storeUrl: Option<string>, limit: int, publicMode: bool, config: Config, fetch: Fetch)
    ensures var p := EcommercePayload(storeUrl, limit, publicMode, config, fetch);
      && (p.Report? && UsesPublicMode(publicMode, storeUrl) ==>
            p.mode == Public && p.store == Some(CleanUrl(storeUrl.value))
            && p.totalSales == Marker(PUBLIC_SALES_MARKER))
      && (p.Report? && !UsesPublicMode(publicMode, storeUrl) ==>
            && p.mode == Private && p.store == config.storeUrl
            && DecodedOrders(fetch, OrdersRequest(config, limit)).Ok?
            && SalesTotal(DecodedOrders(fetch, OrdersRequest(config, limit)).value).Ok?
            && p.totalSales == Total(SalesTotal(DecodedOrders(fetch, OrdersRequest(config, limit)).value).value))
      && (p.ErrorPayload? ==>
            var outcome := if UsesPublicMode(publicMode, storeUrl) then PublicReport(storeUrl.value, limit, fetch)
                           else PrivateReport(limit, config, fetch);
            outcome.Err? && p.error == ERROR_PREFIX + Message(outcome.error))
  {
    if UsesPublicMode(publicMode, storeUrl) {
      var clean := CleanUrl(storeUrl.value);
      PublicReportShape(clean, FetchJson(fetch, PublicRequest(clean, limit), true));
    } else {
      PrivateReportShape(config, FetchJson(fetch, OrdersRequest(config, limit), false),
                         FetchJson(fetch, ProductsRequest(config, limit), false));
    }
  }

  /** The public branch, whatever the listing: a public report of `clean`, or a failure. */
  lemma PublicReportShape(clean: string, listing: Result<Body, Failure>)
    ensures var p := ToPayload(PublicReportOf(clean, listing));
      && (p.Report? ==> p.mode == Public && p.store == Some(clean) && p.totalSales == Marker(PUBLIC_SALES_MARKER))
      && (p.ErrorPayload? ==> PublicReportOf(clean, listing).Err?
                              && p.error == ERROR_PREFIX + Message(PublicReportOf(clean, listing).error))
  {
  }

  /** The private branch, whatever the answers: a private report of the configured store, or a failure. */
  lemma PrivateReportShape(config: Config, ordersListing: Result<Body, Failure>,
                           productsListing: Result<Body, Failure>)
    ensures var r := PrivateReportOf(config, ordersListing, productsListing);
      var p := ToPayload(r);
      && (p.Report? ==>
            && p.mode == Private && p.store == config.storeUrl
            && ordersListing.Ok? && Items(ordersListing.value.orders).Ok?
            && SalesTotal(Items(ordersListing.value.orders).value).Ok?
            && p.totalSales == Total(SalesTotal(Items(ordersListing.value.orders).value).value))
      && (p.ErrorPayload? ==> r.Err? && p.error == ERROR_PREFIX + Message(r.error))
  {
  }

  /**
   * A report is never partial: its top products and its alerts are those of
   * the whole product list decoded from the products request of the chosen
   * mode (the listing, whose status is checked, in public mode; the admin
   * products request in private mode).
   */
  lemma ReportIsComplete(storeUrl: Option<string>, limit: int, publicMode: bool, config: Config, fetch: Fetch)
    requires EcommercePayload(storeUrl, limit, publicMode, config, fetch).Report?
    ensures var p := EcommercePayload(storeUrl, limit, publicMode, config, fetch);
      var public := UsesPublicMode(publicMode, storeUrl);
      var req := if public then PublicRequest(CleanUrl(storeUrl.value), limit) else ProductsRequest(config, limit);
      var listed := DecodedProducts(fetch, req, public);
      && listed.Ok?
      && |p.topProducts| == |listed.value|
      && (forall i :: 0 <= i < |listed.value| ==> p.topProducts[i] == Get(listed.value[i].title))
      && p.inventoryAlerts == Lines(LowPairs(AllPairs(listed.value)))
  {
    var ps: seq<Product>;
    if UsesPublicMode(publicMode, storeUrl) {
      var body := FetchJson(fetch, PublicRequest(CleanUrl(storeUrl.value), limit), true);
      assert body.Ok?;
      assert Items(body.value.products).Ok?;
      ps := Items(body.value.products).value;
      assert DecodedProducts(fetch, PublicRequest(CleanUrl(storeUrl.value), limit), true) == Ok(ps);
    } else {
      var ordersBody := FetchJson(fetch, OrdersRequest(config, limit), false);
      assert ordersBody.Ok?;
      assert Items(ordersBody.value.orders).Ok?;
      assert SalesTotal(Items(ordersBody.value.orders).value).Ok?;
      var body := FetchJson(fetch, ProductsRequest(config, limit), false);
      assert body.Ok?;
      assert Items(body.value.products).Ok?;
      ps := Items(body.value.products).value;
      assert DecodedProducts(fetch, ProductsRequest(config, limit), false) == Ok(ps);
    }
    assert TopProducts(ps).Ok? && Alerts(ps).Ok?;
    AlertsMatchLowStock(ps);
  }

  lemma FetchJsonDepends(f: Fetch, g: Fetch, req: Request, checkStatus: bool)
    requires f(req) == g(req)
    ensures FetchJson(f, req, checkStatus) == FetchJson(g, req, checkStatus)
  {
  }

  /** Public mode issues one request, the products listing of the cleaned URL, and nothing else. */
  lemma PublicModeFetchesOnlyListing(storeUrl: string, limit: int, config: Config, f: Fetch, g: Fetch)
    requires storeUrl != ""
    requires f(PublicRequest(CleanUrl(storeUrl), limit)) == g(PublicRequest(CleanUrl(storeUrl), limit))
    ensures EcommercePayload(Some(storeUrl), limit, true, config, f)
         == EcommercePayload(Some(storeUrl), limit, true, config, g)
  {
    assert UsesPublicMode(true, Some(storeUrl));
    FetchJsonDepends(f, g, PublicRequest(CleanUrl(storeUrl), limit), true);
    assert PublicReport(storeUrl, limit, f) == PublicReport(storeUrl, limit, g);
  }

  /** Private mode issues the orders request and the products request, and nothing else. */
  lemma PrivateModeFetchesOrdersAndProducts(storeUrl: Option<string>, limit: int, publicMode: bool,
                                            config: Config, f: Fetch, g: Fetch)
    requires !UsesPublicMode(publicMode, storeUrl)
    requires f(OrdersRequest(config, limit)) == g(OrdersRequest(config, limit))
    requires f(ProductsRequest(config, limit)) == g(ProductsRequest(config, limit))
    ensures EcommercePayload(storeUrl, limit, publicMode, config, f)
         == EcommercePayload(storeUrl, limit, publicMode, config, g)
  {
    FetchJsonDepends(f, g, OrdersRequest(config, limit), false);
    FetchJsonDepends(f, g, ProductsRequest(config, limit), false);
    assert PrivateReport(limit, config, f) == PrivateReport(limit, config, g);
  }
}
