/** The two pricing paths of the checkout: the advisory quote and the order, over one snapshot of
    the database. They share the arithmetic but check stock, ages and fees differently. */
module CheckoutPricing {
  import opened Wrappers
  import opened Sums
  import opened Sorting
  import opened Money
  import opened Rates
  import A = Allocation

  // What the database holds.

  datatype Reservation = Reservation(active: bool, expiresAt: int, quantity: int)

  datatype Inventory = Inventory(id: int, eligible: bool, onHand: int, reservations: seq<Reservation>)

  /** sellable stands for the public filters on the variant and its product. */
  datatype Variant = Variant(
    id: int, sellable: bool, price: int, promotion: Option<int>, taxRate: int, weight: int,
    minimumAge: Option<int>, inventory: seq<Inventory>)

  datatype Pickup = Pickup(id: int, active: bool, minOrder: Option<int>, maxCod: Option<int>)

  datatype Zone = Zone(
    id: int, active: bool, supported: bool, suspended: bool, priority: int,
    minOrder: Option<int>, maxCod: Option<int>, freeThreshold: Option<int>)

  datatype ZoneLink = ZoneLink(active: bool, priorityOverride: Option<int>, zone: Zone)

  /** active covers the locality, its delegation and its governorate. */
  datatype Locality = Locality(id: int, active: bool, delegation: int, governorate: int, links: seq<ZoneLink>)

  datatype RateRow = RateRow(rate: Rate, active: bool, validFrom: Option<int>, validUntil: Option<int>)

  /** The quote reads its clock again for the rates of a courier delivery: courierNow. */
  datatype Snapshot = Snapshot(
    now: int, courierNow: int, checkoutAllowed: bool, minimumAge: Option<int>, variants: seq<Variant>,
    pickups: seq<Pickup>, localities: seq<Locality>, rates: seq<RateRow>)

  // What a request asks and what it gets.

  datatype Request = Request(items: seq<A.Request>, locality: Option<int>, pickup: Option<int>, express: bool)

  datatype LineCalculation = LineCalculation(listSubtotal: int, discount: int, taxable: int, tax: int, total: int,
    effectiveUnitPrice: int)

  datatype Line = Line(variant: int, quantity: int, calculation: LineCalculation)

  datatype Totals = Totals(subtotal: int, discount: int, tax: int, weight: int)

  datatype Priced = Priced(totals: Totals, lines: seq<Line>)

  datatype Fulfillment = Fulfillment(deliveryTotal: int, maxCod: Option<int>, rates: seq<Rate>)

  datatype Quote = Quote(priced: Priced, fulfillment: Fulfillment, grandTotal: int)

  datatype Order = Order(quote: Quote, allocations: seq<A.Allocation>)

  datatype Error =
    | CheckoutUnavailable | FulfillmentSelectionRequired | ExpressPickupUnsupported | DuplicateItem
    | ProductUnavailable | ProductAgeRestriction | OutOfStock | InventoryInvariantBreach
    | CatalogPriceInvalid | CatalogMeasurementInvalid | MoneyOutOfRange
    | PickupLocationUnavailable | MinimumOrderNotMet | DeliveryAreaUnsupported
    | DeliveryRateUnavailable | DeliveryConfigurationInvalid | ExpressDeliveryUnavailable | MaximumCodExceeded

  // Lines.

  function CalculateQuoteLine(listPrice: int, promotion: Option<int>, quantity: int,
    taxRate: int): Result<LineCalculation, MoneyError> {
    if listPrice < 0 || (promotion.Some? && (promotion.value < 0 || promotion.value > listPrice)) then Err(RangeError)
    else
      var effective := promotion.GetOr(listPrice);
      var listSubtotal :- Multiply(listPrice, quantity);
      var taxable :- Multiply(effective, quantity);
      var discount :- Add([listSubtotal, -taxable]);
      var tax :- BasisPoints(taxable, taxRate);
      var total :- Add([taxable, tax]);
      Ok(LineCalculation(listSubtotal, discount, taxable, tax, total, effective))
  }

  function Exact<T>(r: Result<T, MoneyError>, otherwise: Error): Result<T, Error> {
    match r
    case Ok(v) => Ok(v)
    case Err(_) => Err(otherwise)
  }

  function QuantityProduct(weight: int, quantity: int): Result<int, Error> {
    if !Safe(weight * quantity) || weight * quantity < 0 then Err(CatalogMeasurementInvalid) else Ok(weight * quantity)
  }

  function AddLine(p: Priced, l: Line, weight: int): Result<Priced, Error> {
    var subtotal :- Exact(Add([p.totals.subtotal, l.calculation.listSubtotal]), MoneyOutOfRange);
    var discount :- Exact(Add([p.totals.discount, l.calculation.discount]), MoneyOutOfRange);
    var tax :- Exact(Add([p.totals.tax, l.calculation.tax]), MoneyOutOfRange);
    var grams :- QuantityProduct(weight, l.quantity);
    var total :- Exact(Add([p.totals.weight, grams]), MoneyOutOfRange);
    Ok(Priced(Totals(subtotal, discount, tax, total), p.lines + [l]))
  }

  /** The running totals after one more line. */
  function PriceLine(v: Variant, quantity: int, p: Priced): Result<Priced, Error> {
    var calculation :- Exact(CalculateQuoteLine(v.price, v.promotion, quantity, v.taxRate), CatalogPriceInvalid);
    AddLine(p, Line(v.id, quantity, calculation), v.weight)
  }

  const NothingPriced := Priced(Totals(0, 0, 0, 0), [])

  function Fetch(variants: seq<Variant>, items: seq<A.Request>): (r: seq<Variant>)
    ensures forall v | v in r :: v in variants && v.sellable
  {
    if variants == [] then []
    else
      var last := variants[|variants| - 1];
      Fetch(variants[..|variants| - 1], items) +
        if last.sellable && (exists i | 0 <= i < |items| :: items[i].variant == last.id) then [last] else []
  }

  function Find(fetched: seq<Variant>, id: int): (r: Option<Variant>)
    ensures r.Some? ==> r.value in fetched && r.value.id == id
    ensures r.None? ==> forall v | v in fetched :: v.id != id
  {
    if fetched == [] then None
    else if fetched[|fetched| - 1].id == id then Some(fetched[|fetched| - 1])
    else Find(fetched[..|fetched| - 1], id)
  }

  predicate Counts(r: Reservation, now: int) { r.active && r.expiresAt > now }

  function Counted(now: int): Reservation -> int { (r: Reservation) => if Counts(r, now) then r.quantity else 0 }

  function AvailableIn(now: int): Inventory -> int {
    (i: Inventory) => if i.eligible then A.Positive(i.onHand - Reserved(i.reservations, now)) else 0
  }

  function Reserved(reservations: seq<Reservation>, now: int): int {
    Sum(reservations, Counted(now))
  }

  /** What the quote calls available: over-reserved stock counts as none. */
  function Available(v: Variant, now: int): int {
    Sum(v.inventory, AvailableIn(now))
  }

  function QuoteLines(fetched: seq<Variant>, now: int, items: seq<A.Request>, p: Priced): Result<Priced, Error>
    decreases |items|
  {
    if items == [] then Ok(p)
    else
      match Find(fetched, items[0].variant)
      case None => Err(ProductUnavailable)
      case Some(v) =>
        if Available(v, now) < items[0].quantity then Err(OutOfStock)
        else
          var next :- PriceLine(v, items[0].quantity, p);
          QuoteLines(fetched, now, items[1..], next)
  }

  predicate AgeAllows(v: Variant, minimumAge: int) { v.minimumAge.None? || v.minimumAge.value <= minimumAge }

  function OrderLines(fetched: seq<Variant>, minimumAge: int, items: seq<A.Request>, p: Priced): Result<Priced, Error>
    decreases |items|
  {
    if items == [] then Ok(p)
    else
      match Find(fetched, items[0].variant)
      case None => Err(ProductUnavailable)
      case Some(v) =>
        if !AgeAllows(v, minimumAge) then Err(ProductAgeRestriction)
        else
          var next :- PriceLine(v, items[0].quantity, p);
          OrderLines(fetched, minimumAge, items[1..], next)
  }

  // Stock of an order.

  function ReservedChecked(reservations: seq<Reservation>, now: int): Result<int, Error> {
    if reservations == [] then Ok(0)
    else
      var total :- ReservedChecked(reservations[..|reservations| - 1], now);
      var r := reservations[|reservations| - 1];
      if !Counts(r, now) then Ok(total)
      else if !Safe(r.quantity) || r.quantity <= 0 || !Safe(total + r.quantity) then Err(InventoryInvariantBreach)
      else Ok(total + r.quantity)
  }

  function BucketsOf(inventory: seq<Inventory>, variant: int, now: int): Result<seq<A.Bucket>, Error> {
    if inventory == [] then Ok([])
    else
      var front :- BucketsOf(inventory[..|inventory| - 1], variant, now);
      var i := inventory[|inventory| - 1];
      if !i.eligible then Ok(front)
      else
        var reserved :- ReservedChecked(i.reservations, now);
        if reserved > i.onHand then Err(InventoryInvariantBreach)
        else Ok(front + [A.Bucket(i.id, variant, i.onHand - reserved)])
  }

  function Buckets(fetched: seq<Variant>, now: int): Result<seq<A.Bucket>, Error> {
    if fetched == [] then Ok([])
    else
      var front :- Buckets(fetched[..|fetched| - 1], now);
      var last :- BucketsOf(fetched[|fetched| - 1].inventory, fetched[|fetched| - 1].id, now);
      Ok(front + last)
  }

  // Fulfilment.

  function FindPickup(pickups: seq<Pickup>, id: int): Option<Pickup> {
    if pickups == [] then None
    else if pickups[0].id == id && pickups[0].active then Some(pickups[0])
    else FindPickup(pickups[1..], id)
  }

  function FindLocality(localities: seq<Locality>, id: int): Option<Locality> {
    if localities == [] then None
    else if localities[0].id == id && localities[0].active then Some(localities[0])
    else FindLocality(localities[1..], id)
  }

  predicate UnderMinimum(minimum: Option<int>, order: int) { minimum.Some? && order < minimum.value }

  function Collect(s: Snapshot, id: int, order: int): Result<Fulfillment, Error> {
    match FindPickup(s.pickups, id)
    case None => Err(PickupLocationUnavailable)
    case Some(p) =>
      if UnderMinimum(p.minOrder, order) then Err(MinimumOrderNotMet) else Ok(Fulfillment(0, p.maxCod, []))
  }

  datatype PrioritizedZone = PrioritizedZone(zone: Zone, priority: int)

  predicate ZoneBefore(a: PrioritizedZone, b: PrioritizedZone) {
    a.priority > b.priority || (a.priority == b.priority && a.zone.id <= b.zone.id)
  }

  function OpenZones(links: seq<ZoneLink>): seq<PrioritizedZone> {
    if links == [] then []
    else
      var l := links[0];
      (if l.active && l.zone.active && l.zone.supported && !l.zone.suspended
       then [PrioritizedZone(l.zone, l.priorityOverride.GetOr(l.zone.priority))] else []) + OpenZones(links[1..])
  }

  predicate ValidAt(r: RateRow, now: int) {
    r.active && (r.validFrom.None? || r.validFrom.value <= now) && (r.validUntil.None? || r.validUntil.value > now)
  }

  /** The rates the query returns: valid at a time and matching the address. */
  function QueryRates(rows: seq<RateRow>, now: int, c: Context): seq<Rate> {
    if rows == [] then []
    else
      var r := rows[|rows| - 1];
      QueryRates(rows[..|rows| - 1], now, c) + if ValidAt(r, now) && Prefiltered(r.rate, c) then [r.rate] else []
  }

  function RateFailure<T>(r: Result<T, RateError>): Result<T, Error> {
    match r
    case Ok(v) => Ok(v)
    case Err(RateMissing) => Err(DeliveryRateUnavailable)
    case Err(RateAmbiguous) => Err(DeliveryConfigurationInvalid)
  }

  function Fees(rates: seq<Rate>): seq<int> { seq(|rates|, i requires 0 <= i < |rates| => rates[i].fee) }

  function Limits(rates: seq<Rate>): seq<Option<int>> { seq(|rates|, i requires 0 <= i < |rates| => rates[i].maxCod) }

  /** The limits that are set. */
  function Present(limits: seq<Option<int>>): seq<int> {
    if limits == [] then []
    else Present(limits[..|limits| - 1]) + if limits[|limits| - 1].Some? then [limits[|limits| - 1].value] else []
  }

  function Lowest(values: seq<int>): Option<int> {
    if values == [] then None
    else
      var front := Lowest(values[..|values| - 1]);
      if front.Some? && front.value <= values[|values| - 1] then front else Some(values[|values| - 1])
  }

  function RateContext(l: Locality, z: Zone, t: Totals, express: bool): Context {
    Context(z.id, l.governorate, l.delegation, l.id, t.subtotal - t.discount, t.weight, express)
  }

  // Courier delivery of a quote.

  const QuoteSurchargeTypes := [RemoteSurcharge, WeightSurcharge, OversizeSurcharge, ExpressSurcharge]

  function QuoteZone(links: seq<ZoneLink>, order: int): Result<Zone, Error> {
    var zones := Sort(OpenZones(links), ZoneBefore);
    if zones == [] then Err(DeliveryAreaUnsupported)
    else if |zones| > 1 && zones[1].priority == zones[0].priority then Err(DeliveryConfigurationInvalid)
    else if UnderMinimum(zones[0].zone.minOrder, order) then Err(MinimumOrderNotMet)
    else Ok(zones[0].zone)
  }

  function QuoteSurcharges(rates: seq<Rate>, c: Context, kinds: seq<RateType>): Result<seq<Rate>, RateError>
    decreases |kinds|
  {
    if kinds == [] then Ok([])
    else
      var first :- SelectSurchargeRate(rates, c, kinds[0]);
      var rest :- QuoteSurcharges(rates, c, kinds[1..]);
      Ok((if first.Some? then [first.value] else []) + rest)
  }

  /** The base rate and every surcharge that applies. */
  function QuoteRates(rates: seq<Rate>, c: Context): Result<seq<Rate>, Error> {
    var base :- RateFailure(SelectBaseRate(rates, c));
    var surcharges :- RateFailure(QuoteSurcharges(rates, c, QuoteSurchargeTypes));
    if c.express && forall r | r in surcharges :: r.kind != ExpressSurcharge then Err(ExpressDeliveryUnavailable)
    else Ok([base] + surcharges)
  }

  function QuoteTotal(z: Zone, rates: seq<Rate>, order: int): Result<int, Error> {
    var total :- Exact(Add(Fees(rates)), MoneyOutOfRange);
    if z.freeThreshold.Some? && order >= z.freeThreshold.value then Ok(0) else Ok(total)
  }

  function QuoteLimit(z: Zone, rates: seq<Rate>): Option<int> { Lowest(Present([z.maxCod]) + Present(Limits(rates))) }

  function QuoteCharge(z: Zone, rates: seq<Rate>, order: int): Result<Fulfillment, Error> {
    var total :- QuoteTotal(z, rates, order);
    Ok(Fulfillment(total, QuoteLimit(z, rates), rates))
  }

  /** Delivery in a chosen zone, at the rates read at a time. */
  function QuoteWithin(rows: seq<RateRow>, at: int, c: Context, zone: Zone): Result<Fulfillment, Error> {
    var rates :- QuoteRates(QueryRates(rows, at, c), c);
    QuoteCharge(zone, rates, c.order)
  }

  function QuoteCourier(s: Snapshot, localityId: int, t: Totals, express: bool): Result<Fulfillment, Error> {
    match FindLocality(s.localities, localityId)
    case None => Err(DeliveryAreaUnsupported)
    case Some(l) =>
      var zone :- QuoteZone(l.links, t.subtotal - t.discount);
      QuoteWithin(s.rates, s.courierNow, RateContext(l, zone, t, express), zone)
  }

  // Courier delivery of an order: a second copy, with one clock and one more check.

  const OrderSurchargeTypes := [RemoteSurcharge, WeightSurcharge, OversizeSurcharge, ExpressSurcharge]

  function OrderZone(links: seq<ZoneLink>, order: int): Result<Zone, Error> {
    var zones := Sort(OpenZones(links), ZoneBefore);
    if zones == [] then Err(DeliveryAreaUnsupported)
    else if |zones| > 1 && zones[1].priority == zones[0].priority then Err(DeliveryConfigurationInvalid)
    else if UnderMinimum(zones[0].zone.minOrder, order) then Err(MinimumOrderNotMet)
    else Ok(zones[0].zone)
  }

  function OrderSurcharges(rates: seq<Rate>, c: Context, kinds: seq<RateType>): Result<seq<Rate>, RateError>
    decreases |kinds|
  {
    if kinds == [] then Ok([])
    else
      var first :- SelectSurchargeRate(rates, c, kinds[0]);
      var rest :- OrderSurcharges(rates, c, kinds[1..]);
      Ok((if first.Some? then [first.value] else []) + rest)
  }

  /** A negative fee is refused with the choice of rates, before anything is added up. */
  function OrderRates(rates: seq<Rate>, c: Context): Result<seq<Rate>, Error> {
    var base :- RateFailure(SelectBaseRate(rates, c));
    var surcharges :- RateFailure(OrderSurcharges(rates, c, OrderSurchargeTypes));
    if c.express && forall r | r in surcharges :: r.kind != ExpressSurcharge then Err(ExpressDeliveryUnavailable)
    else
      var selected := [base] + surcharges;
      if exists r | r in selected :: r.fee < 0 then Err(DeliveryConfigurationInvalid) else Ok(selected)
  }

  function OrderTotal(z: Zone, rates: seq<Rate>, order: int): Result<int, Error> {
    var total :- Exact(Add(Fees(rates)), MoneyOutOfRange);
    if z.freeThreshold.Some? && order >= z.freeThreshold.value then Ok(0) else Ok(total)
  }

  function OrderLimit(z: Zone, rates: seq<Rate>): Option<int> { Lowest(Present([z.maxCod] + Limits(rates))) }

  function OrderCharge(z: Zone, rates: seq<Rate>, order: int): Result<Fulfillment, Error> {
    var total :- OrderTotal(z, rates, order);
    Ok(Fulfillment(total, OrderLimit(z, rates), rates))
  }

  /** Delivery in a chosen zone, at the rates read at a time. */
  function OrderWithin(rows: seq<RateRow>, at: int, c: Context, zone: Zone): Result<Fulfillment, Error> {
    var rates :- OrderRates(QueryRates(rows, at, c), c);
    OrderCharge(zone, rates, c.order)
  }

  function OrderCourier(s: Snapshot, localityId: int, t: Totals, express: bool): Result<Fulfillment, Error> {
    match FindLocality(s.localities, localityId)
    case None => Err(DeliveryAreaUnsupported)
    case Some(l) =>
      var zone :- OrderZone(l.links, t.subtotal - t.discount);
      OrderWithin(s.rates, s.now, RateContext(l, zone, t, express), zone)
  }

  /** The grand total and the cash limit, common to both paths. */
  function Finish(p: Priced, f: Fulfillment): Result<Quote, Error> {
    var grandTotal :- Exact(Add([p.totals.subtotal - p.totals.discount, p.totals.tax, f.deliveryTotal]),
      MoneyOutOfRange);
    if f.maxCod.Some? && grandTotal > f.maxCod.value then Err(MaximumCodExceeded)
    else Ok(Quote(p, f, grandTotal))
  }

  function Discounted(t: Totals): Result<int, Error> { Exact(Add([t.subtotal, -t.discount]), MoneyOutOfRange) }

  function QuoteFrom(s: Snapshot, r: Request, p: Priced): Result<Quote, Error>
    requires r.locality.Some? || r.pickup.Some?
  {
    var order :- Discounted(p.totals);
    var f :-
      if r.pickup.Some? then Collect(s, r.pickup.value, order)
      else QuoteCourier(s, r.locality.value, p.totals, r.express);
    Finish(p, f)
  }

  function OrderFrom(s: Snapshot, r: Request, p: Priced): Result<Quote, Error>
    requires r.locality.Some? || r.pickup.Some?
  {
    var order :- Discounted(p.totals);
    var f :-
      if r.pickup.Some? then Collect(s, r.pickup.value, order)
      else OrderCourier(s, r.locality.value, p.totals, r.express);
    Finish(p, f)
  }

  function QuoteSpec(s: Snapshot, r: Request): Result<Quote, Error> {
    if !s.checkoutAllowed then Err(CheckoutUnavailable)
    else if r.locality.Some? == r.pickup.Some? then Err(FulfillmentSelectionRequired)
    else if r.express && r.pickup.Some? then Err(ExpressPickupUnsupported)
    else if !DistinctBy(r.items, A.VariantOf) then Err(DuplicateItem)
    else
      var fetched := Fetch(s.variants, r.items);
      if |fetched| != |r.items| then Err(ProductUnavailable)
      else
        var p :- QuoteLines(fetched, s.now, r.items, NothingPriced);
        QuoteFrom(s, r, p)
  }

  /** Stock is promised before the total is known. */
  function Reserve(fetched: seq<Variant>, now: int, items: seq<A.Request>): Result<seq<A.Allocation>, Error> {
    var buckets :- Buckets(fetched, now);
    match A.Allocate(items, buckets)
    case None => Err(OutOfStock)
    case Some(allocations) => Ok(allocations)
  }

  /** What is wrong with an order request in itself, whatever the database holds. */
  function RequestShape(r: Request): Option<Error> {
    if !DistinctBy(r.items, A.VariantOf) then Some(DuplicateItem)
    else if r.locality.Some? == r.pickup.Some? then Some(FulfillmentSelectionRequired)
    else if r.express && r.pickup.Some? then Some(ExpressPickupUnsupported)
    else None
  }

  /** The pricing and stock part of an order, from its request checks to its cash limit. */
  function OrderSpec(s: Snapshot, r: Request): Result<Order, Error> {
    if RequestShape(r).Some? then Err(RequestShape(r).value)
    else if !s.checkoutAllowed || s.minimumAge.None? then Err(CheckoutUnavailable)
    else
      var fetched := Fetch(s.variants, r.items);
      if |fetched| != |r.items| then Err(ProductUnavailable)
      else
        var p :- OrderLines(fetched, s.minimumAge.value, r.items, NothingPriced);
        var allocations :- Reserve(fetched, s.now, r.items);
        var q :- OrderFrom(s, r, p);
        Ok(Order(q, allocations))
  }
}
