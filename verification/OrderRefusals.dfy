/** What each refusal of a whole quote or order says: of its shape, its items, their stock, its
    delivery and its total. */
module OrderRefusals {
  import opened Wrappers
  import opened Sums
  import opened Sorting
  import opened Money
  import opened CheckoutPricing
  import opened CheckoutProof
  import opened DeliveryFacts
  import opened QuoteFacts
  import opened QuoteRefusals
  import A = Allocation

  // Items.

  /** The prices of a line can be worked out exactly. */
  predicate PriceFits(v: Variant, quantity: int) {
    && 0 <= UnitPrice(v) <= v.price && Exactly(v.price) && 0 <= quantity && Exactly(quantity)
    && Exactly(v.price * quantity) && 0 <= v.taxRate <= 100_000
    && Exactly(UnitPrice(v) * quantity + TaxOn(UnitPrice(v) * quantity, v.taxRate))
  }

  /** The tax to the nearest millime, halves upwards. */
  function TaxOn(amount: int, basisPoints: int): int { (amount * basisPoints + 5_000) / 10_000 }

  lemma TaxNonNegative(amount: int, basisPoints: int)
    requires 0 <= amount && 0 <= basisPoints
    ensures TaxOn(amount, basisPoints) >= 0
  {
    ProductMonotone(0, amount, basisPoints);
  }

  lemma FitsIs(v: Variant, quantity: int)
    ensures CalculateQuoteLine(v.price, v.promotion, quantity, v.taxRate).Ok? <==> PriceFits(v, quantity)
    ensures PriceFits(v, quantity) ==>
      CalculateQuoteLine(v.price, v.promotion, quantity, v.taxRate).value.tax ==
        TaxOn(UnitPrice(v) * quantity, v.taxRate)
  {
    var unit := v.promotion.GetOr(v.price);
    if 0 <= unit <= v.price && quantity >= 0 {
      Products(unit, v.price, quantity);
      AddTwo(v.price * quantity, -(unit * quantity));
      BasisPointsRoundsHalfUp(unit * quantity, v.taxRate);
      NearestIsFloor(unit * quantity * v.taxRate);
      AddTwo(unit * quantity, TaxOn(unit * quantity, v.taxRate));
      if v.taxRate >= 0 { TaxNonNegative(unit * quantity, v.taxRate); }
    }
  }

  /** The totals after one more line, and after several. */
  function After(t: Totals, v: Variant, quantity: int): Totals {
    Totals(t.subtotal + v.price * quantity, t.discount + (v.price - UnitPrice(v)) * quantity,
      t.tax + TaxOn(UnitPrice(v) * quantity, v.taxRate), t.weight + v.weight * quantity)
  }

  function AfterAll(t: Totals, vs: seq<Variant>, items: seq<A.Request>): Totals
    requires |vs| <= |items|
    decreases |vs|
  {
    if vs == [] then t else AfterAll(After(t, vs[0], items[0].quantity), vs[1..], items[1..])
  }

  predicate AllExactly(t: Totals) {
    Exactly(t.subtotal) && Exactly(t.discount) && Exactly(t.tax) && Exactly(t.weight)
  }

  /** The totals of the first items, at the prices of the catalogue, cannot be added up exactly. */
  ghost predicate Overflows(s: Snapshot, items: seq<A.Request>, t: Totals) {
    exists vs: seq<Variant> | 0 < |vs| <= |items| ::
      (forall k | 0 <= k < |vs| :: Sells(s, vs[k], items[k].variant)) && !AllExactly(AfterAll(t, vs, items))
  }

  /** Why an item cannot be had: a quote looks at its stock, an order at its minimum age. */
  predicate ItemRefused(v: Variant, quantity: int, now: int, age: Option<int>, e: Error) {
    match e
    case OutOfStock => age.None? && Free(v, now) < quantity
    case ProductAgeRestriction => age.Some? && v.minimumAge.Some? && age.value < v.minimumAge.value
    case CatalogPriceInvalid => !PriceFits(v, quantity)
    case CatalogMeasurementInvalid => v.weight * quantity < 0 || !Exactly(v.weight * quantity)
    case _ => false
  }

  /** The catalogue sells nothing under this id. */
  predicate Unsold(s: Snapshot, id: int) { forall v | v in s.variants :: !Sells(s, v, id) }

  ghost predicate LinesRefused(s: Snapshot, items: seq<A.Request>, age: Option<int>, t: Totals, e: Error) {
    match e
    case ProductUnavailable => exists k | 0 <= k < |items| :: Unsold(s, items[k].variant)
    case MoneyOutOfRange => Overflows(s, items, t)
    case _ => exists k | 0 <= k < |items| :: SomeItemRefused(s, items[k], age, e)
  }

  ghost predicate SomeItemRefused(s: Snapshot, item: A.Request, age: Option<int>, e: Error) {
    exists v | v in s.variants :: Sells(s, v, item.variant) && ItemRefused(v, item.quantity, s.now, age, e)
  }

  lemma Distributes(a: int, b: int, n: int)
    ensures a * n - b * n == (a - b) * n
  {
  }

  lemma AddLineTells(p: Priced, l: Line, weight: int)
    ensures var c := l.calculation; var t := Totals(p.totals.subtotal + c.listSubtotal,
        p.totals.discount + c.discount, p.totals.tax + c.tax, p.totals.weight + weight * l.quantity);
      match AddLine(p, l, weight)
      case Ok(next) => next.totals == t && AllExactly(t)
      case Err(CatalogMeasurementInvalid) => weight * l.quantity < 0 || !Exactly(weight * l.quantity)
      case Err(MoneyOutOfRange) =>
        !AllExactly(p.totals) || !AllExactly(t) ||
        !(Exactly(c.listSubtotal) && Exactly(c.discount) && Exactly(c.tax))
      case Err(_) => false
  {
    AddTwo(p.totals.subtotal, l.calculation.listSubtotal);
    AddTwo(p.totals.discount, l.calculation.discount);
    AddTwo(p.totals.tax, l.calculation.tax);
    AddTwo(p.totals.weight, weight * l.quantity);
  }

  lemma PriceLineTells(v: Variant, quantity: int, p: Priced)
    ensures match PriceLine(v, quantity, p)
      case Ok(next) => next.totals == After(p.totals, v, quantity) && AllExactly(next.totals)
      case Err(CatalogPriceInvalid) => !PriceFits(v, quantity)
      case Err(CatalogMeasurementInvalid) => v.weight * quantity < 0 || !Exactly(v.weight * quantity)
      case Err(MoneyOutOfRange) => !AllExactly(p.totals) || !AllExactly(After(p.totals, v, quantity))
      case Err(_) => false
  {
    FitsIs(v, quantity);
    if PriceFits(v, quantity) {
      LineMeaning(v.price, v.promotion, quantity, v.taxRate);
      var c := CalculateQuoteLine(v.price, v.promotion, quantity, v.taxRate).value;
      Distributes(v.price, UnitPrice(v), quantity);
      AddLineTells(p, Line(v.id, quantity, c), v.weight);
    }
  }

  /** The fetched variants are those the catalogue sells for these items. */
  ghost predicate Stocks(s: Snapshot, fetched: seq<Variant>, items: seq<A.Request>) {
    && (forall v | v in fetched :: v in s.variants && v.sellable)
    && forall v, k | 0 <= k < |items| && Sells(s, v, items[k].variant) :: v in fetched
  }

  lemma {:induction false} FetchStocks(variants: seq<Variant>, items: seq<A.Request>)
    ensures forall v | v in Fetch(variants, items) :: v in variants && v.sellable
    ensures forall v, k | 0 <= k < |items| && v in variants && v.sellable && v.id == items[k].variant ::
      v in Fetch(variants, items)
  {
    if variants != [] {
      var front, last := variants[..|variants| - 1], variants[|variants| - 1];
      FetchStocks(front, items);
      assert variants == front + [last];
    }
  }

  lemma ItemTells(s: Snapshot, item: A.Request, v: Variant, age: Option<int>, e: Error)
    requires Sells(s, v, item.variant) && ItemRefused(v, item.quantity, s.now, age, e)
    ensures SomeItemRefused(s, item, age, e)
  {
  }

  lemma OverflowsOnce(s: Snapshot, items: seq<A.Request>, v: Variant, t: Totals)
    requires items != [] && Sells(s, v, items[0].variant) && !AllExactly(After(t, v, items[0].quantity))
    ensures Overflows(s, items, t)
  {
    assert [v][1..] == [] && AfterAll(t, [v], items) == After(t, v, items[0].quantity);
  }

  lemma OverflowsLater(s: Snapshot, items: seq<A.Request>, v: Variant, t: Totals)
    requires items != [] && Sells(s, v, items[0].variant)
    requires Overflows(s, items[1..], After(t, v, items[0].quantity))
    ensures Overflows(s, items, t)
  {
    var rest: seq<Variant> :| 0 < |rest| <= |items[1..]| &&
      (forall k | 0 <= k < |rest| :: Sells(s, rest[k], items[1..][k].variant)) &&
      !AllExactly(AfterAll(After(t, v, items[0].quantity), rest, items[1..]));
    var vs := [v] + rest;
    assert vs[1..] == rest && AfterAll(t, vs, items) == AfterAll(After(t, v, items[0].quantity), rest, items[1..]);
    forall k | 0 <= k < |vs| ensures Sells(s, vs[k], items[k].variant) {
      if k > 0 { assert vs[k] == rest[k - 1] && items[1..][k - 1] == items[k]; }
    }
  }

  lemma TailRefused(s: Snapshot, items: seq<A.Request>, v: Variant, age: Option<int>, t: Totals, e: Error)
    requires items != [] && Sells(s, v, items[0].variant)
    requires LinesRefused(s, items[1..], age, After(t, v, items[0].quantity), e)
    ensures LinesRefused(s, items, age, t, e)
  {
    if e == MoneyOutOfRange {
      OverflowsLater(s, items, v, t);
    } else if e == ProductUnavailable {
      var k :| 0 <= k < |items[1..]| && Unsold(s, items[1..][k].variant);
      assert Unsold(s, items[k + 1].variant);
    } else {
      var k :| 0 <= k < |items[1..]| && SomeItemRefused(s, items[1..][k], age, e);
      assert SomeItemRefused(s, items[k + 1], age, e);
    }
  }

  lemma StocksTail(s: Snapshot, fetched: seq<Variant>, items: seq<A.Request>)
    requires items != [] && Stocks(s, fetched, items)
    ensures Stocks(s, fetched, items[1..])
  {
    assert forall k | 0 <= k < |items| - 1 :: items[1..][k] == items[k + 1];
  }

  lemma NextPriceTells(s: Snapshot, items: seq<A.Request>, v: Variant, age: Option<int>, p: Priced)
    requires items != [] && Sells(s, v, items[0].variant) && AllExactly(p.totals)
    requires PriceLine(v, items[0].quantity, p).Err?
    ensures LinesRefused(s, items, age, p.totals, PriceLine(v, items[0].quantity, p).error)
  {
    PriceLineTells(v, items[0].quantity, p);
    var e := PriceLine(v, items[0].quantity, p).error;
    if e == MoneyOutOfRange {
      OverflowsOnce(s, items, v, p.totals);
    } else {
      ItemTells(s, items[0], v, age, e);
    }
  }

  lemma {:induction false} QuoteLinesTell(s: Snapshot, fetched: seq<Variant>, items: seq<A.Request>, p: Priced)
    requires Stocks(s, fetched, items) && AllExactly(p.totals) && QuoteLines(fetched, s.now, items, p).Err?
    ensures LinesRefused(s, items, None, p.totals, QuoteLines(fetched, s.now, items, p).error)
    decreases |items|
  {
    var found := Find(fetched, items[0].variant);
    if found.Some? {
      var v, quantity := found.value, items[0].quantity;
      FreeIs(v, s.now);
      PriceLineTells(v, quantity, p);
      if Available(v, s.now) < quantity {
        ItemTells(s, items[0], v, None, OutOfStock);
      } else if PriceLine(v, quantity, p).Err? {
        NextPriceTells(s, items, v, None, p);
      } else {
        StocksTail(s, fetched, items);
        QuoteLinesTell(s, fetched, items[1..], PriceLine(v, quantity, p).value);
        TailRefused(s, items, v, None, p.totals, QuoteLines(fetched, s.now, items, p).error);
      }
    }
  }

  lemma {:induction false} OrderLinesTell(s: Snapshot, fetched: seq<Variant>, age: int, items: seq<A.Request>,
    p: Priced)
    requires Stocks(s, fetched, items) && AllExactly(p.totals) && OrderLines(fetched, age, items, p).Err?
    ensures LinesRefused(s, items, Some(age), p.totals, OrderLines(fetched, age, items, p).error)
    decreases |items|
  {
    var found := Find(fetched, items[0].variant);
    if found.Some? {
      var v, quantity := found.value, items[0].quantity;
      PriceLineTells(v, quantity, p);
      if !AgeAllows(v, age) {
        ItemTells(s, items[0], v, Some(age), ProductAgeRestriction);
      } else if PriceLine(v, quantity, p).Err? {
        NextPriceTells(s, items, v, Some(age), p);
      } else {
        StocksTail(s, fetched, items);
        OrderLinesTell(s, fetched, age, items[1..], PriceLine(v, quantity, p).value);
        TailRefused(s, items, v, Some(age), p.totals, OrderLines(fetched, age, items, p).error);
      }
    }
  }

  // The number of variants fetched.

  ghost function Keys<T>(rows: seq<T>, key: T -> int): set<int> {
    if rows == [] then {} else Keys(rows[..|rows| - 1], key) + {key(rows[|rows| - 1])}
  }

  lemma {:induction false} KeysCount<T>(rows: seq<T>, key: T -> int)
    ensures forall id :: id in Keys(rows, key) <==> exists x | x in rows :: key(x) == id
    ensures DistinctBy(rows, key) ==> |Keys(rows, key)| == |rows|
  {
    if rows != [] {
      var front, last := rows[..|rows| - 1], rows[|rows| - 1];
      KeysCount(front, key);
      assert rows == front + [last];
      if key(last) in Keys(front, key) {
        var x :| x in front && key(x) == key(last);
        var i :| 0 <= i < |front| && front[i] == x;
        assert key(rows[i]) == key(rows[|rows| - 1]);
      }
    }
  }

  lemma {:induction false} FetchedAsked(variants: seq<Variant>, items: seq<A.Request>)
    ensures forall v | v in Fetch(variants, items) :: exists k :: 0 <= k < |items| && items[k].variant == v.id
  {
    if variants != [] { FetchedAsked(variants[..|variants| - 1], items); }
  }

  lemma SoldIsFetched(s: Snapshot, items: seq<A.Request>, k: nat, v: Variant)
    requires k < |items| && Sells(s, v, items[k].variant)
    ensures items[k].variant in Keys(Fetch(s.variants, items), VariantId)
  {
    FetchStocks(s.variants, items);
    KeysCount(Fetch(s.variants, items), VariantId);
    assert v in Fetch(s.variants, items) && VariantId(v) == items[k].variant;
  }

  lemma UnfetchedUnsold(s: Snapshot, items: seq<A.Request>, k: nat)
    requires k < |items| && items[k].variant !in Keys(Fetch(s.variants, items), VariantId)
    ensures Unsold(s, items[k].variant)
  {
    forall v | v in s.variants ensures !Sells(s, v, items[k].variant) {
      if Sells(s, v, items[k].variant) { SoldIsFetched(s, items, k, v); }
    }
  }

  lemma FetchedKeys(variants: seq<Variant>, items: seq<A.Request>)
    ensures Keys(Fetch(variants, items), VariantId) <= Keys(items, A.VariantOf)
  {
    var fetched := Fetch(variants, items);
    FetchedAsked(variants, items);
    KeysCount(fetched, VariantId);
    KeysCount(items, A.VariantOf);
    forall id | id in Keys(fetched, VariantId) ensures id in Keys(items, A.VariantOf) {
      var v :| v in fetched && VariantId(v) == id;
      var k :| 0 <= k < |items| && items[k].variant == v.id;
      assert items[k] in items && A.VariantOf(items[k]) == id;
    }
  }

  lemma AllFetched(variants: seq<Variant>, items: seq<A.Request>)
    requires DistinctBy(variants, VariantId) && DistinctBy(items, A.VariantOf)
    requires forall k | 0 <= k < |items| :: items[k].variant in Keys(Fetch(variants, items), VariantId)
    ensures |Fetch(variants, items)| == |items|
  {
    var had, asked := Keys(Fetch(variants, items), VariantId), Keys(items, A.VariantOf);
    FetchDistinct(variants, items);
    FetchedKeys(variants, items);
    KeysCount(Fetch(variants, items), VariantId);
    KeysCount(items, A.VariantOf);
    forall id | id in asked ensures id in had {
      var i :| i in items && A.VariantOf(i) == id;
      var k :| 0 <= k < |items| && items[k] == i;
    }
    assert had == asked;
  }

  lemma FetchedWhole(s: Snapshot, items: seq<A.Request>)
    requires DistinctBy(s.variants, VariantId) && DistinctBy(items, A.VariantOf)
    requires |Fetch(s.variants, items)| != |items|
    ensures exists k | 0 <= k < |items| :: Unsold(s, items[k].variant)
  {
    if forall k | 0 <= k < |items| :: items[k].variant in Keys(Fetch(s.variants, items), VariantId) {
      AllFetched(s.variants, items);
    }
    var k :| 0 <= k < |items| && items[k].variant !in Keys(Fetch(s.variants, items), VariantId);
    UnfetchedUnsold(s, items, k);
  }

  // The delivery and the total.

  /** What is due cannot be worked out exactly, or is over the cash limit. */
  predicate TotalRefused(t: Totals, f: Fulfillment, e: Error) {
    var due := t.subtotal - t.discount + t.tax + f.deliveryTotal;
    match e
    case MaximumCodExceeded => f.maxCod.Some? && f.maxCod.value < due
    case MoneyOutOfRange =>
      !Exactly(t.subtotal - t.discount) || !Exactly(t.tax) || !Exactly(f.deliveryTotal) || !Exactly(due)
    case _ => false
  }

  predicate PickupRefused(s: Snapshot, id: int, order: int, e: Error) {
    match e
    case PickupLocationUnavailable => forall p | p in s.pickups :: p.id != id || !p.active
    case MinimumOrderNotMet =>
      exists p | p in s.pickups :: p.id == id && p.active && p.minOrder.Some? && order < p.minOrder.value
    case _ => false
  }

  predicate OrderAmountInexact(t: Totals) {
    !Exactly(t.subtotal) || !Exactly(t.discount) || !Exactly(t.subtotal - t.discount)
  }

  /** Why priced lines are not delivered, or not for what is due. */
  ghost predicate EndRefused(s: Snapshot, at: int, r: Request, t: Totals, order: int, ordered: bool, e: Error) {
    || (e == MoneyOutOfRange && OrderAmountInexact(t))
    || (r.pickup.Some? && PickupRefused(s, r.pickup.value, order, e))
    || (r.pickup.None? && r.locality.Some? &&
        CourierRefused(s, at, r.locality.value, order, t.weight, r.express, ordered, e))
    || exists f :: Delivers(s, at, r, order, t.weight, f) && TotalRefused(t, f, e)
  }

  lemma FinishTells(p: Priced, f: Fulfillment)
    requires Finish(p, f).Err?
    ensures TotalRefused(p.totals, f, Finish(p, f).error)
  {
    AddThree(p.totals.subtotal - p.totals.discount, p.totals.tax, f.deliveryTotal);
  }

  lemma PickupTells(s: Snapshot, id: int, order: int)
    ensures match Collect(s, id, order)
      case Ok(f) => f.deliveryTotal == 0 && f.rates == [] && exists p | p in s.pickups :: OpenPickup(p, id, order, f)
      case Err(e) => PickupRefused(s, id, order, e)
  {
    PickupCharges(s, id, order);
  }

  lemma DiscountedTells(t: Totals)
    ensures match Discounted(t)
      case Ok(order) => order == t.subtotal - t.discount
      case Err(e) => e == MoneyOutOfRange && OrderAmountInexact(t)
  {
    AddTwo(t.subtotal, -t.discount);
  }

  lemma QuoteEndTells(s: Snapshot, r: Request, p: Priced, order: int)
    requires (r.locality.Some? <==> r.pickup.None?) && QuoteFrom(s, r, p).Err?
    requires order == p.totals.subtotal - p.totals.discount
    ensures EndRefused(s, s.courierNow, r, p.totals, order, false, QuoteFrom(s, r, p).error)
  {
    DiscountedTells(p.totals);
    if Discounted(p.totals).Ok? {
      if r.pickup.Some? {
        PickupTells(s, r.pickup.value, order);
        var f := Collect(s, r.pickup.value, order);
        if f.Ok? { FinishTells(p, f.value); }
      } else {
        var f := QuoteCourier(s, r.locality.value, p.totals, r.express);
        if f.Ok? {
          var l, i := QuoteCharges(s, r.locality.value, p.totals, order, r.express);
          assert Delivers(s, s.courierNow, r, order, p.totals.weight, f.value);
          FinishTells(p, f.value);
        } else {
          QuoteCourierTells(s, r.locality.value, p.totals, order, r.express);
        }
      }
    }
  }

  lemma OrderEndTells(s: Snapshot, r: Request, p: Priced, order: int)
    requires (r.locality.Some? <==> r.pickup.None?) && OrderFrom(s, r, p).Err?
    requires order == p.totals.subtotal - p.totals.discount
    ensures EndRefused(s, s.now, r, p.totals, order, true, OrderFrom(s, r, p).error)
  {
    DiscountedTells(p.totals);
    if Discounted(p.totals).Ok? {
      if r.pickup.Some? {
        PickupTells(s, r.pickup.value, order);
        var f := Collect(s, r.pickup.value, order);
        if f.Ok? { FinishTells(p, f.value); }
      } else {
        var f := OrderCourier(s, r.locality.value, p.totals, r.express);
        if f.Ok? {
          var l, i := OrderCharges(s, r.locality.value, p.totals, order, r.express);
          assert Delivers(s, s.now, r, order, p.totals.weight, f.value);
          FinishTells(p, f.value);
        } else {
          OrderCourierTells(s, r.locality.value, p.totals, order, r.express);
        }
      }
    }
  }

  // The whole.

  const Nothing := Totals(0, 0, 0, 0)

  ghost predicate PricedRefused(s: Snapshot, at: int, r: Request, ordered: bool, e: Error) {
    exists vs, p: Priced, order: int ::
      && PricedLines(s, r.items, vs, p) && order == p.totals.subtotal - p.totals.discount
      && EndRefused(s, at, r, p.totals, order, ordered, e)
  }

  /** What is wrong with a request in itself. */
  predicate ShapeRefused(r: Request, e: Error) {
    match e
    case FulfillmentSelectionRequired => r.locality.Some? <==> r.pickup.Some?
    case ExpressPickupUnsupported => r.express && r.pickup.Some?
    case DuplicateItem => !OnceEach(r.items)
    case _ => false
  }

  /** What each refusal of a quote means: checkout is closed, the request is not in order, an item
      cannot be had at a price, or the delivery or the total of the priced lines is refused. */
  ghost predicate QuoteRefused(s: Snapshot, r: Request, e: Error) {
    || (e == CheckoutUnavailable && !s.checkoutAllowed)
    || ShapeRefused(r, e)
    || LinesRefused(s, r.items, None, Nothing, e)
    || PricedRefused(s, s.courierNow, r, false, e)
  }

  lemma QuotePricedTells(s: Snapshot, r: Request, p: Priced, order: int)
    requires QuoteLines(Fetch(s.variants, r.items), s.now, r.items, NothingPriced) == Ok(p)
    requires (r.locality.Some? <==> r.pickup.None?) && QuoteFrom(s, r, p).Err?
    requires order == p.totals.subtotal - p.totals.discount
    ensures PricedRefused(s, s.courierNow, r, false, QuoteFrom(s, r, p).error)
  {
    QuoteLinesIff(Fetch(s.variants, r.items), s.now, r.items, NothingPriced);
    var vs := LinesArePriced(s, r.items);
    QuoteEndTells(s, r, p, order);
  }

  /** Past the request's own checks. */
  lemma QuoteLateTells(s: Snapshot, r: Request)
    requires DistinctBy(s.variants, VariantId) && s.checkoutAllowed && WellFormed(r) && QuoteSpec(s, r).Err?
    ensures LinesRefused(s, r.items, None, Nothing, QuoteSpec(s, r).error) ||
      PricedRefused(s, s.courierNow, r, false, QuoteSpec(s, r).error)
  {
    var fetched := Fetch(s.variants, r.items);
    WellFormedIs(r);
    if |fetched| != |r.items| {
      FetchedWhole(s, r.items);
    } else {
      var lines := QuoteLines(fetched, s.now, r.items, NothingPriced);
      if lines.Err? {
        FetchStocks(s.variants, r.items);
        QuoteLinesTell(s, fetched, r.items, NothingPriced);
      } else {
        QuotePricedTells(s, r, lines.value, lines.value.totals.subtotal - lines.value.totals.discount);
      }
    }
  }

  /** A quote is refused only for a reason that holds. */
  lemma QuoteTells(s: Snapshot, r: Request)
    requires DistinctBy(s.variants, VariantId) && QuoteSpec(s, r).Err?
    ensures QuoteRefused(s, r, QuoteSpec(s, r).error)
  {
    WellFormedIs(r);
    if s.checkoutAllowed && WellFormed(r) { QuoteLateTells(s, r); }
  }

  // The order.

  /** What is reserved of a row is not a sum of positive amounts within what is on hand. */
  predicate Unsound(i: Inventory, now: int) {
    || (exists x | x in i.reservations :: x.active && now < x.expiresAt && (x.quantity <= 0 || !Exactly(x.quantity)))
    || !Exactly(Sum(i.reservations, HeldBack(now))) || i.onHand < Sum(i.reservations, HeldBack(now))
  }

  ghost predicate StockRefused(s: Snapshot, item: A.Request, e: Error) {
    exists v | v in s.variants :: Sells(s, v, item.variant) && VariantStockRefused(v, item.quantity, s.now, e)
  }

  predicate VariantStockRefused(v: Variant, quantity: int, now: int, e: Error) {
    match e
    case InventoryInvariantBreach => exists i | i in v.inventory :: i.eligible && Unsound(i, now)
    case OutOfStock => Free(v, now) < quantity
    case _ => false
  }

  lemma UnsoundIs(i: Inventory, now: int)
    requires !SoundStock(i, now)
    ensures Unsound(i, now)
  {
    SumEq(i.reservations, Counted(now), HeldBack(now));
  }

  lemma BreachTells(s: Snapshot, items: seq<A.Request>)
    requires Buckets(Fetch(s.variants, items), s.now).Err?
    ensures exists k | 0 <= k < |items| :: StockRefused(s, items[k], InventoryInvariantBreach)
  {
    var fetched := Fetch(s.variants, items);
    BucketsIff(fetched, s.now, 0);
    FetchStocks(s.variants, items);
    FetchedAsked(s.variants, items);
    var v :| v in fetched && !SoundVariant(v, s.now);
    var i :| i in v.inventory && i.eligible && !SoundStock(i, s.now);
    UnsoundIs(i, s.now);
    var k :| 0 <= k < |items| && items[k].variant == v.id;
    assert VariantStockRefused(v, items[k].quantity, s.now, InventoryInvariantBreach);
    assert StockRefused(s, items[k], InventoryInvariantBreach);
  }

  lemma ShortItem(s: Snapshot, items: seq<A.Request>, item: A.Request)
    requires Find(Fetch(s.variants, items), item.variant).Some? && !StockFor(Fetch(s.variants, items), s.now, item)
    ensures StockRefused(s, item, OutOfStock)
  {
    var v := Find(Fetch(s.variants, items), item.variant).value;
    FreeIs(v, s.now);
    assert Sells(s, v, item.variant) && VariantStockRefused(v, item.quantity, s.now, OutOfStock);
  }

  lemma {:induction false} ShortTells(s: Snapshot, items: seq<A.Request>, fetched: seq<Variant>)
    requires DistinctBy(s.variants, VariantId) && DistinctBy(items, A.VariantOf) && fetched == Fetch(s.variants, items)
    requires AllFound(fetched, items) && Buckets(fetched, s.now).Ok?
    requires A.Allocate(items, Buckets(fetched, s.now).value).None?
    ensures exists k | 0 <= k < |items| :: StockRefused(s, items[k], OutOfStock)
  {
    FetchDistinct(s.variants, items);
    AllocatorAgreesWithQuote(fetched, s.now, items);
    var k :| 0 <= k < |items| && !StockFor(fetched, s.now, items[k]);
    ShortItem(s, items, items[k]);
  }

  /** What each refusal of an order means: as of a quote, but with the age policy in place of the
      stock of each item, and the stock of the whole after that. */
  ghost predicate OrderRefused(s: Snapshot, r: Request, e: Error) {
    || (e == CheckoutUnavailable && (!s.checkoutAllowed || s.minimumAge.None?))
    || ShapeRefused(r, e)
    || (s.minimumAge.Some? && LinesRefused(s, r.items, s.minimumAge, Nothing, e))
    || (exists k | 0 <= k < |r.items| :: StockRefused(s, r.items[k], e))
    || PricedRefused(s, s.now, r, true, e)
  }

  lemma ReserveTells(s: Snapshot, items: seq<A.Request>)
    requires DistinctBy(s.variants, VariantId) && DistinctBy(items, A.VariantOf)
    requires AllFound(Fetch(s.variants, items), items) && Reserve(Fetch(s.variants, items), s.now, items).Err?
    ensures exists k | 0 <= k < |items| ::
      StockRefused(s, items[k], Reserve(Fetch(s.variants, items), s.now, items).error)
  {
    BucketsError(Fetch(s.variants, items), s.now);
    if Buckets(Fetch(s.variants, items), s.now).Err? {
      BreachTells(s, items);
    } else {
      ShortTells(s, items, Fetch(s.variants, items));
    }
  }

  lemma OrderPricedTells(s: Snapshot, r: Request, age: int, p: Priced, order: int)
    requires OrderLines(Fetch(s.variants, r.items), age, r.items, NothingPriced) == Ok(p)
    requires (r.locality.Some? <==> r.pickup.None?) && OrderFrom(s, r, p).Err?
    requires order == p.totals.subtotal - p.totals.discount
    ensures PricedRefused(s, s.now, r, true, OrderFrom(s, r, p).error)
  {
    OrderLinesIff(Fetch(s.variants, r.items), age, r.items, NothingPriced);
    var vs := LinesArePriced(s, r.items);
    OrderEndTells(s, r, p, order);
  }

  lemma OrderLateTells(s: Snapshot, r: Request, age: int)
    requires DistinctBy(s.variants, VariantId) && s.checkoutAllowed && s.minimumAge == Some(age) && WellFormed(r)
    requires OrderSpec(s, r).Err? && |Fetch(s.variants, r.items)| == |r.items|
    ensures OrderRefused(s, r, OrderSpec(s, r).error)
  {
    var fetched := Fetch(s.variants, r.items);
    WellFormedIs(r);
    var lines := OrderLines(fetched, age, r.items, NothingPriced);
    if lines.Err? {
      FetchStocks(s.variants, r.items);
      OrderLinesTell(s, fetched, age, r.items, NothingPriced);
    } else {
      OrderLinesIff(fetched, age, r.items, NothingPriced);
      QuoteLinesIff(fetched, s.now, r.items, NothingPriced);
      if Reserve(fetched, s.now, r.items).Err? {
        ReserveTells(s, r.items);
      } else {
        OrderPricedTells(s, r, age, lines.value, lines.value.totals.subtotal - lines.value.totals.discount);
      }
    }
  }

  /** An order is refused only for a reason that holds. */
  lemma OrderTells(s: Snapshot, r: Request)
    requires DistinctBy(s.variants, VariantId) && OrderSpec(s, r).Err?
    ensures OrderRefused(s, r, OrderSpec(s, r).error)
  {
    WellFormedIs(r);
    if s.checkoutAllowed && s.minimumAge.Some? && WellFormed(r) {
      if |Fetch(s.variants, r.items)| != |r.items| {
        FetchedWhole(s, r.items);
      } else {
        OrderLateTells(s, r, s.minimumAge.value);
      }
    }
  }
}
