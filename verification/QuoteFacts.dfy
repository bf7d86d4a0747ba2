/** What a quote and an order say: lines at the prices of the catalogue, enough stock, a delivery as
    the rates have it, and what is due. */
module QuoteFacts {
  import opened Wrappers
  import opened Sums
  import opened Sorting
  import opened Money
  import opened CheckoutPricing
  import opened CourierAgreement
  import opened CheckoutProof
  import opened DeliveryFacts
  import A = Allocation

  // Lines.

  /** The catalogue sells this variant under this id. */
  predicate Sells(s: Snapshot, v: Variant, id: int) { v in s.variants && v.sellable && v.id == id }

  function UnitPrice(v: Variant): int { if v.promotion.Some? then v.promotion.value else v.price }

  /** A line of a variant: its promotion or its price times the quantity, the tax on that to the
      nearest millime, and what the promotion saves. */
  predicate LineOf(l: Line, v: Variant, quantity: int) {
    var c := l.calculation;
    && l.variant == v.id && l.quantity == quantity >= 0
    && 0 <= UnitPrice(v) <= v.price && c.effectiveUnitPrice == UnitPrice(v)
    && c.taxable == UnitPrice(v) * quantity && c.listSubtotal == v.price * quantity
    && c.discount == c.listSubtotal - c.taxable
    && -5_000 < 10_000 * c.tax - c.taxable * v.taxRate <= 5_000
    && c.total == c.taxable + c.tax
  }

  function Grams(vs: seq<Variant>, items: seq<A.Request>): int
    requires |vs| == |items|
  {
    if items == [] then 0 else vs[0].weight * items[0].quantity + Grams(vs[1..], items[1..])
  }

  /** One line for each item, of a variant on sale under its id, and the totals of all lines. */
  ghost predicate PricedLines(s: Snapshot, items: seq<A.Request>, vs: seq<Variant>, p: Priced) {
    && |vs| == |items| == |p.lines|
    && (forall k | 0 <= k < |items| ::
          Sells(s, vs[k], items[k].variant) && LineOf(p.lines[k], vs[k], items[k].quantity))
    && p.totals.subtotal == Sum(p.lines, (l: Line) => l.calculation.listSubtotal)
    && p.totals.discount == Sum(p.lines, (l: Line) => l.calculation.discount)
    && p.totals.tax == Sum(p.lines, (l: Line) => l.calculation.tax)
    && p.totals.weight == Grams(vs, items)
  }

  /** One priced line. */
  predicate NextLine(v: Variant, quantity: int, p: Priced, next: Priced) {
    && |next.lines| == |p.lines| + 1 && next.lines[..|p.lines|] == p.lines
    && LineOf(next.lines[|p.lines|], v, quantity)
    && next.totals.weight == p.totals.weight + v.weight * quantity
  }

  lemma PricedOnce(v: Variant, quantity: int, p: Priced)
    requires PriceLine(v, quantity, p).Ok?
    ensures NextLine(v, quantity, p, PriceLine(v, quantity, p).value)
  {
    LineMeaning(v.price, v.promotion, quantity, v.taxRate);
    var c := CalculateQuoteLine(v.price, v.promotion, quantity, v.taxRate).value;
    AddTwo(p.totals.subtotal, c.listSubtotal);
    AddTwo(p.totals.discount, c.discount);
    AddTwo(p.totals.tax, c.tax);
    AddTwo(p.totals.weight, v.weight * quantity);
  }

  /** What the lines after the earlier ones are. */
  ghost predicate LinesFrom(fetched: seq<Variant>, items: seq<A.Request>, vs: seq<Variant>, p: Priced, q: Priced) {
    && |vs| == |items| && |q.lines| == |p.lines| + |items| && q.lines[..|p.lines|] == p.lines
    && (forall k | 0 <= k < |items| :: Find(fetched, items[k].variant) == Some(vs[k]) &&
          LineOf(q.lines[|p.lines| + k], vs[k], items[k].quantity))
    && q.totals.weight == p.totals.weight + Grams(vs, items)
  }

  lemma JoinLines(fetched: seq<Variant>, items: seq<A.Request>, v: Variant, rest: seq<Variant>, p: Priced, next: Priced,
    q: Priced)
    requires items != [] && Find(fetched, items[0].variant) == Some(v) && NextLine(v, items[0].quantity, p, next)
    requires LinesFrom(fetched, items[1..], rest, next, q)
    ensures LinesFrom(fetched, items, [v] + rest, p, q)
  {
    var vs := [v] + rest;
    assert vs[1..] == rest;
    assert q.lines[..|p.lines|] == q.lines[..|next.lines|][..|p.lines|];
    assert q.lines[|p.lines|] == q.lines[..|next.lines|][|p.lines|];
    forall k | 0 < k < |items|
      ensures Find(fetched, items[k].variant) == Some(vs[k]) &&
        LineOf(q.lines[|p.lines| + k], vs[k], items[k].quantity)
    {
      assert vs[k] == rest[k - 1] && items[k] == items[1..][k - 1];
      assert q.lines[|p.lines| + k] == q.lines[|next.lines| + (k - 1)];
    }
  }

  lemma {:induction false} PlainLinesAre(fetched: seq<Variant>, items: seq<A.Request>, p: Priced)
    returns (vs: seq<Variant>)
    requires PlainLines(fetched, items, p).Ok?
    ensures LinesFrom(fetched, items, vs, p, PlainLines(fetched, items, p).value)
    decreases |items|
  {
    if items == [] {
      vs := [];
      assert p.lines[..|p.lines|] == p.lines;
    } else {
      var v := Find(fetched, items[0].variant).value;
      var next := PriceLine(v, items[0].quantity, p).value;
      PricedOnce(v, items[0].quantity, p);
      var rest := PlainLinesAre(fetched, items[1..], next);
      vs := [v] + rest;
      JoinLines(fetched, items, v, rest, p, next, PlainLines(fetched, items, p).value);
    }
  }

  lemma {:induction false} PlainAddUp(fetched: seq<Variant>, items: seq<A.Request>, p: Priced)
    requires AddsUp(p) && PlainLines(fetched, items, p).Ok?
    ensures AddsUp(PlainLines(fetched, items, p).value)
    decreases |items|
  {
    if items != [] {
      var v := Find(fetched, items[0].variant).value;
      PriceLineAddsUp(v, items[0].quantity, p);
      PlainAddUp(fetched, items[1..], PriceLine(v, items[0].quantity, p).value);
    }
  }

  lemma LinesArePriced(s: Snapshot, items: seq<A.Request>) returns (vs: seq<Variant>)
    requires PlainLines(Fetch(s.variants, items), items, NothingPriced).Ok?
    ensures PricedLines(s, items, vs, PlainLines(Fetch(s.variants, items), items, NothingPriced).value)
    ensures forall k | 0 <= k < |items| :: Find(Fetch(s.variants, items), items[k].variant) == Some(vs[k])
  {
    var p := PlainLines(Fetch(s.variants, items), items, NothingPriced).value;
    vs := PlainLinesAre(Fetch(s.variants, items), items, NothingPriced);
    PlainAddUp(Fetch(s.variants, items), items, NothingPriced);
    SumEq(p.lines, ListSubtotal(), (l: Line) => l.calculation.listSubtotal);
    SumEq(p.lines, Discount(), (l: Line) => l.calculation.discount);
    SumEq(p.lines, Tax(), (l: Line) => l.calculation.tax);
  }

  // Stock.

  /** What a reservation holds back at a time. */
  function HeldBack(now: int): Reservation -> int {
    (r: Reservation) => if r.active && now < r.expiresAt then r.quantity else 0
  }

  /** What is left of a stock row, if it may be sold. */
  function FreeIn(now: int): Inventory -> int {
    (i: Inventory) =>
      if i.eligible && Sum(i.reservations, HeldBack(now)) < i.onHand then i.onHand - Sum(i.reservations, HeldBack(now))
      else 0
  }

  function Free(v: Variant, now: int): int { Sum(v.inventory, FreeIn(now)) }

  lemma FreeIs(v: Variant, now: int)
    ensures Available(v, now) == Free(v, now)
  {
    forall i | i in v.inventory ensures AvailableIn(now)(i) == FreeIn(now)(i) {
      SumEq(i.reservations, Counted(now), HeldBack(now));
    }
    SumEq(v.inventory, AvailableIn(now), FreeIn(now));
  }

  // Delivery.

  /** A free pickup at an active place, or a courier delivery to an active locality, for this amount
      and this weight at this time. */
  predicate Delivers(s: Snapshot, at: int, r: Request, order: int, weight: int, f: Fulfillment) {
    if r.pickup.Some?
    then f.deliveryTotal == 0 && f.rates == [] && exists p | p in s.pickups :: OpenPickup(p, r.pickup.value, order, f)
    else
      r.locality.Some? &&
      exists l | l in s.localities :: Reaches(s, at, l, r.locality.value, order, weight, r.express, f)
  }

  predicate OpenPickup(p: Pickup, id: int, order: int, f: Fulfillment) {
    p.id == id && p.active && f.maxCod == p.maxCod && (p.minOrder.Some? ==> p.minOrder.value <= order)
  }

  predicate Reaches(s: Snapshot, at: int, l: Locality, id: int, order: int, weight: int, express: bool,
    f: Fulfillment) {
    l.id == id && exists i: nat | i < |l.links| :: Charges(s, at, l, i, order, weight, express, f)
  }

  // The quote and the order.

  predicate OnceEach(items: seq<A.Request>) {
    forall i, j | 0 <= i < j < |items| :: items[i].variant != items[j].variant
  }

  /** A request for one place, a pickup without express, and each variant once. */
  predicate WellFormed(r: Request) {
    && (r.locality.Some? <==> r.pickup.None?) && (r.pickup.Some? ==> !r.express) && OnceEach(r.items)
  }

  lemma WellFormedIs(r: Request)
    ensures RequestShape(r).None? <==> WellFormed(r)
    ensures OnceEach(r.items) <==> DistinctBy(r.items, A.VariantOf)
  {
    assert forall i | 0 <= i < |r.items| :: A.VariantOf(r.items[i]) == r.items[i].variant;
  }

  /** What is due: the lines and the delivery, up to the cash limit. */
  predicate Due(q: Quote) {
    && q.grandTotal == Sum(q.priced.lines, (l: Line) => l.calculation.total) + q.fulfillment.deliveryTotal
    && (q.fulfillment.maxCod.Some? ==> q.grandTotal <= q.fulfillment.maxCod.value)
  }

  lemma FinishDue(p: Priced, f: Fulfillment)
    requires AddsUp(p) && Finish(p, f).Ok?
    ensures Due(Finish(p, f).value)
  {
    FinishMeaning(p, f);
    AddedUpTotals(p);
    SumEq(p.lines, LineTotal(), (l: Line) => l.calculation.total);
  }

  lemma QuoteDelivers(s: Snapshot, r: Request, p: Priced, order: int)
    requires (r.locality.Some? <==> r.pickup.None?) && QuoteFrom(s, r, p).Ok?
    requires order == p.totals.subtotal - p.totals.discount
    ensures var q := QuoteFrom(s, r, p).value;
      && q.priced == p && Finish(p, q.fulfillment) == Ok(q)
      && Delivers(s, s.courierNow, r, order, p.totals.weight, q.fulfillment)
  {
    QuoteEnds(s, r, p);
    AddTwo(p.totals.subtotal, -p.totals.discount);
    if r.pickup.Some? {
      PickupCharges(s, r.pickup.value, order);
    } else {
      var l, i := QuoteCharges(s, r.locality.value, p.totals, order, r.express);
    }
  }

  lemma QuotePassed(s: Snapshot, r: Request)
    requires QuoteSpec(s, r).Ok?
    ensures s.checkoutAllowed && WellFormed(r)
    ensures var q := QuoteSpec(s, r).value; var fetched := Fetch(s.variants, r.items);
      && InStock(fetched, s.now, r.items) && PlainLines(fetched, r.items, NothingPriced) == Ok(q.priced)
      && QuoteFrom(s, r, q.priced) == Ok(q)
  {
    QuoteParts(s, r);
    WellFormedIs(r);
    QuoteLinesIff(Fetch(s.variants, r.items), s.now, r.items, NothingPriced);
  }

  lemma StockedOnce(fetched: seq<Variant>, now: int, item: A.Request, v: Variant)
    requires StockFor(fetched, now, item) && Find(fetched, item.variant) == Some(v)
    ensures item.quantity <= Free(v, now)
  {
    FreeIs(v, now);
  }

  lemma Stocked(fetched: seq<Variant>, now: int, items: seq<A.Request>, vs: seq<Variant>)
    requires |vs| == |items| && InStock(fetched, now, items)
    requires forall k | 0 <= k < |items| :: Find(fetched, items[k].variant) == Some(vs[k])
    ensures forall k | 0 <= k < |items| :: items[k].quantity <= Free(vs[k], now)
  {
    forall k | 0 <= k < |items| ensures items[k].quantity <= Free(vs[k], now) {
      StockedOnce(fetched, now, items[k], vs[k]);
    }
  }

  lemma EndDue(s: Snapshot, items: seq<A.Request>, q: Quote)
    requires PlainLines(Fetch(s.variants, items), items, NothingPriced) == Ok(q.priced)
    requires Finish(q.priced, q.fulfillment) == Ok(q)
    ensures Due(q)
  {
    PlainAddUp(Fetch(s.variants, items), items, NothingPriced);
    FinishDue(q.priced, q.fulfillment);
  }

  /** A quote is for a request in order, while checkout is open: its lines, its stock, its delivery at
      the time its rates were read, and what is due. */
  lemma QuoteStates(s: Snapshot, r: Request, q: Quote, order: int) returns (vs: seq<Variant>)
    requires QuoteSpec(s, r) == Ok(q) && order == q.priced.totals.subtotal - q.priced.totals.discount
    ensures s.checkoutAllowed && WellFormed(r) && PricedLines(s, r.items, vs, q.priced)
    ensures forall k | 0 <= k < |r.items| :: r.items[k].quantity <= Free(vs[k], s.now)
    ensures Delivers(s, s.courierNow, r, order, q.priced.totals.weight, q.fulfillment) && Due(q)
  {
    QuotePassed(s, r);
    vs := LinesArePriced(s, r.items);
    Stocked(Fetch(s.variants, r.items), s.now, r.items, vs);
    QuoteDelivers(s, r, q.priced, order);
    EndDue(s, r.items, q);
  }

  lemma OrderDelivers(s: Snapshot, r: Request, p: Priced, order: int)
    requires (r.locality.Some? <==> r.pickup.None?) && OrderFrom(s, r, p).Ok?
    requires order == p.totals.subtotal - p.totals.discount
    ensures var q := OrderFrom(s, r, p).value;
      && q.priced == p && Finish(p, q.fulfillment) == Ok(q)
      && Delivers(s, s.now, r, order, p.totals.weight, q.fulfillment)
      && forall rate | rate in q.fulfillment.rates :: rate.fee >= 0
  {
    AddTwo(p.totals.subtotal, -p.totals.discount);
    if r.pickup.Some? {
      PickupCharges(s, r.pickup.value, order);
    } else {
      var l, i := OrderCharges(s, r.locality.value, p.totals, order, r.express);
    }
  }

  lemma OrderPassed(s: Snapshot, r: Request)
    requires OrderSpec(s, r).Ok?
    ensures s.checkoutAllowed && s.minimumAge.Some? && WellFormed(r)
    ensures var q := OrderSpec(s, r).value.quote; var fetched := Fetch(s.variants, r.items);
      && AgesAllow(fetched, s.minimumAge.value, r.items)
      && PlainLines(fetched, r.items, NothingPriced) == Ok(q.priced) && OrderFrom(s, r, q.priced) == Ok(q)
  {
    var fetched := Fetch(s.variants, r.items);
    WellFormedIs(r);
    OrderLinesIff(fetched, s.minimumAge.value, r.items, NothingPriced);
    OrderKeepsLines(s, r, OrderLines(fetched, s.minimumAge.value, r.items, NothingPriced).value);
  }

  lemma OrderKeepsLines(s: Snapshot, r: Request, p: Priced)
    requires (r.locality.Some? || r.pickup.Some?) && OrderFrom(s, r, p).Ok?
    ensures OrderFrom(s, r, p).value.priced == p
  {
  }

  /** An order is for a request in order, while checkout is open and its age policy known: its lines,
      whose products the policy allows, its delivery at its own time, without a negative fee, and what
      is due. */
  lemma OrderStates(s: Snapshot, r: Request, o: Order, order: int) returns (vs: seq<Variant>)
    requires OrderSpec(s, r) == Ok(o) && order == o.quote.priced.totals.subtotal - o.quote.priced.totals.discount
    ensures s.checkoutAllowed && s.minimumAge.Some? && WellFormed(r) && PricedLines(s, r.items, vs, o.quote.priced)
    ensures forall k | 0 <= k < |vs| && vs[k].minimumAge.Some? :: vs[k].minimumAge.value <= s.minimumAge.value
    ensures Delivers(s, s.now, r, order, o.quote.priced.totals.weight, o.quote.fulfillment) && Due(o.quote)
    ensures forall rate | rate in o.quote.fulfillment.rates :: rate.fee >= 0
    ensures forall k | 0 <= k < |r.items| :: Find(Fetch(s.variants, r.items), r.items[k].variant) == Some(vs[k])
  {
    OrderPassed(s, r);
    vs := LinesArePriced(s, r.items);
    forall k | 0 <= k < |vs| && vs[k].minimumAge.Some? ensures vs[k].minimumAge.value <= s.minimumAge.value {
      assert AgeFor(Fetch(s.variants, r.items), s.minimumAge.value, r.items[k]);
    }
    OrderDelivers(s, r, o.quote.priced, order);
    EndDue(s, r.items, o.quote);
  }
}
