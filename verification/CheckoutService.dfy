/** The loops of the two pricing paths. */
module CheckoutService {
  import opened Wrappers
  import opened Sorting
  import opened Money
  import opened Rates
  import opened CheckoutPricing
  import opened CheckoutProof
  import opened CourierAgreement
  import opened CourierMeaning
  import A = Allocation

  /** Running totals of a quote, one line at a time. */
  method QuoteItems(fetched: seq<Variant>, now: int, items: seq<A.Request>) returns (r: Result<Priced, Error>)
    ensures r == QuoteLines(fetched, now, items, NothingPriced)
  {
    var subtotal, discountTotal, taxTotal, totalWeight := 0, 0, 0, 0;
    var lines: seq<Line> := [];
    assert items[0..] == items;
    for k := 0 to |items|
      invariant QuoteLines(fetched, now, items, NothingPriced) ==
        QuoteLines(fetched, now, items[k..], Priced(Totals(subtotal, discountTotal, taxTotal, totalWeight), lines))
    {
      assert items[k..][0] == items[k] && items[k..][1..] == items[k + 1..];
      var variant := Find(fetched, items[k].variant);
      if variant.None? { return Err(ProductUnavailable); }
      if Available(variant.value, now) < items[k].quantity { return Err(OutOfStock); }
      var v := variant.value;
      var calculation := CalculateQuoteLine(v.price, v.promotion, items[k].quantity, v.taxRate);
      if calculation.Err? { return Err(CatalogPriceInvalid); }
      var line := Line(v.id, items[k].quantity, calculation.value);
      var next := AddLine(Priced(Totals(subtotal, discountTotal, taxTotal, totalWeight), lines), line, v.weight);
      if next.Err? { return Err(next.error); }
      var totals := next.value.totals;
      subtotal, discountTotal, taxTotal, totalWeight := totals.subtotal, totals.discount, totals.tax, totals.weight;
      lines := lines + [line];
    }
    return Ok(Priced(Totals(subtotal, discountTotal, taxTotal, totalWeight), lines));
  }

  method OrderItems(fetched: seq<Variant>, minimumAge: int, items: seq<A.Request>) returns (r: Result<Priced, Error>)
    ensures r == OrderLines(fetched, minimumAge, items, NothingPriced)
  {
    var subtotal, discountTotal, taxTotal, totalWeight := 0, 0, 0, 0;
    var lines: seq<Line> := [];
    assert items[0..] == items;
    for k := 0 to |items|
      invariant OrderLines(fetched, minimumAge, items, NothingPriced) ==
        OrderLines(fetched, minimumAge, items[k..],
          Priced(Totals(subtotal, discountTotal, taxTotal, totalWeight), lines))
    {
      assert items[k..][0] == items[k] && items[k..][1..] == items[k + 1..];
      var variant := Find(fetched, items[k].variant);
      if variant.None? { return Err(ProductUnavailable); }
      var v := variant.value;
      if v.minimumAge.Some? && v.minimumAge.value > minimumAge { return Err(ProductAgeRestriction); }
      var calculation := CalculateQuoteLine(v.price, v.promotion, items[k].quantity, v.taxRate);
      if calculation.Err? { return Err(CatalogPriceInvalid); }
      var line := Line(v.id, items[k].quantity, calculation.value);
      var next := AddLine(Priced(Totals(subtotal, discountTotal, taxTotal, totalWeight), lines), line, v.weight);
      if next.Err? { return Err(next.error); }
      var totals := next.value.totals;
      subtotal, discountTotal, taxTotal, totalWeight := totals.subtotal, totals.discount, totals.tax, totals.weight;
      lines := lines + [line];
    }
    return Ok(Priced(Totals(subtotal, discountTotal, taxTotal, totalWeight), lines));
  }

  function After(chosen: seq<Rate>, rest: Result<seq<Rate>, RateError>): Result<seq<Rate>, RateError> {
    if rest.Err? then rest else Ok(chosen + rest.value)
  }

  function Given(rate: Option<Rate>): seq<Rate> { if rate.Some? then [rate.value] else [] }

  lemma AfterBoth(chosen: seq<Rate>, first: seq<Rate>, rest: Result<seq<Rate>, RateError>)
    ensures After(chosen, After(first, rest)) == After(chosen + first, rest)
  {
    if rest.Ok? { assert chosen + (first + rest.value) == chosen + first + rest.value; }
  }

  lemma SurchargesStep(rates: seq<Rate>, c: Context, kinds: seq<RateType>, chosen: seq<Rate>)
    requires kinds != []
    ensures var rate := SelectSurchargeRate(rates, c, kinds[0]);
      After(chosen, QuoteSurcharges(rates, c, kinds)) ==
        if rate.Err? then Err(rate.error) else After(chosen + Given(rate.value), QuoteSurcharges(rates, c, kinds[1..]))
  {
    var rate := SelectSurchargeRate(rates, c, kinds[0]);
    if rate.Ok? {
      assert QuoteSurcharges(rates, c, kinds) == After(Given(rate.value), QuoteSurcharges(rates, c, kinds[1..]));
      AfterBoth(chosen, Given(rate.value), QuoteSurcharges(rates, c, kinds[1..]));
    }
  }

  method SelectSurcharges(rates: seq<Rate>, c: Context, kinds: seq<RateType>) returns (r: Result<seq<Rate>, RateError>)
    ensures r == QuoteSurcharges(rates, c, kinds)
  {
    var chosen: seq<Rate> := [];
    ghost var all := QuoteSurcharges(rates, c, kinds);
    assert kinds[0..] == kinds && (all.Ok? ==> [] + all.value == all.value);
    for k := 0 to |kinds|
      invariant all == After(chosen, QuoteSurcharges(rates, c, kinds[k..]))
    {
      assert kinds[k..][0] == kinds[k] && kinds[k..][1..] == kinds[k + 1..];
      SurchargesStep(rates, c, kinds[k..], chosen);
      var rate := SelectSurchargeRate(rates, c, kinds[k]);
      if rate.Err? { return Err(rate.error); }
      chosen := chosen + Given(rate.value);
    }
    assert kinds[|kinds|..] == [] && chosen + [] == chosen;
    return Ok(chosen);
  }

  method ChooseZone(links: seq<ZoneLink>, order: int) returns (r: Result<Zone, Error>)
    ensures r == QuoteZone(links, order) == OrderZone(links, order)
  {
    var zones := Sort(OpenZones(links), ZoneBefore);
    if zones == [] { return Err(DeliveryAreaUnsupported); }
    if |zones| > 1 && zones[1].priority == zones[0].priority { return Err(DeliveryConfigurationInvalid); }
    if UnderMinimum(zones[0].zone.minOrder, order) { return Err(MinimumOrderNotMet); }
    return Ok(zones[0].zone);
  }

  method RatesOfQuote(rates: seq<Rate>, c: Context) returns (r: Result<seq<Rate>, Error>)
    ensures r == QuoteRates(rates, c)
  {
    var base := SelectBaseRate(rates, c);
    if base.Err? {
      return Err(if base.error == RateMissing then DeliveryRateUnavailable else DeliveryConfigurationInvalid);
    }
    var surcharges := SelectSurcharges(rates, c, QuoteSurchargeTypes);
    if surcharges.Err? {
      return Err(if surcharges.error == RateMissing then DeliveryRateUnavailable else DeliveryConfigurationInvalid);
    }
    if c.express && forall x | x in surcharges.value :: x.kind != ExpressSurcharge {
      return Err(ExpressDeliveryUnavailable);
    }
    return Ok([base.value] + surcharges.value);
  }

  method RatesOfOrder(rates: seq<Rate>, c: Context) returns (r: Result<seq<Rate>, Error>)
    ensures r == OrderRates(rates, c)
  {
    SurchargesAgree(rates, c, OrderSurchargeTypes);
    var base := SelectBaseRate(rates, c);
    if base.Err? {
      return Err(if base.error == RateMissing then DeliveryRateUnavailable else DeliveryConfigurationInvalid);
    }
    var surcharges := SelectSurcharges(rates, c, OrderSurchargeTypes);
    if surcharges.Err? {
      return Err(if surcharges.error == RateMissing then DeliveryRateUnavailable else DeliveryConfigurationInvalid);
    }
    if c.express && forall x | x in surcharges.value :: x.kind != ExpressSurcharge {
      return Err(ExpressDeliveryUnavailable);
    }
    var selected := [base.value] + surcharges.value;
    if exists x | x in selected :: x.fee < 0 { return Err(DeliveryConfigurationInvalid); }
    return Ok(selected);
  }

  /** The fees added up, unless delivery is free from this order amount on, and the cash limit. */
  method ChargeQuote(zone: Zone, selected: seq<Rate>, order: int) returns (r: Result<Fulfillment, Error>)
    ensures r == QuoteCharge(zone, selected, order)
    ensures r.Ok? ==> r.value.rates == selected && ChargedFor(zone, order, r.value)
  {
    LimitIsLowest(zone, selected);
    var total := Add(Fees(selected));
    if total.Err? { return Err(MoneyOutOfRange); }
    var deliveryTotal := total.value;
    if zone.freeThreshold.Some? && order >= zone.freeThreshold.value { deliveryTotal := 0; }
    return Ok(Fulfillment(deliveryTotal, Lowest(Present([zone.maxCod]) + Present(Limits(selected))), selected));
  }

  method ChargeOrder(zone: Zone, selected: seq<Rate>, order: int) returns (r: Result<Fulfillment, Error>)
    ensures r == OrderCharge(zone, selected, order)
    ensures r.Ok? ==> r.value.rates == selected && ChargedFor(zone, order, r.value)
  {
    LimitIsLowest(zone, selected);
    ChargesAgree(zone, selected, order);
    var total := Add(Fees(selected));
    if total.Err? { return Err(MoneyOutOfRange); }
    var deliveryTotal := total.value;
    if zone.freeThreshold.Some? && order >= zone.freeThreshold.value { deliveryTotal := 0; }
    return Ok(Fulfillment(deliveryTotal, Lowest(Present([zone.maxCod] + Limits(selected))), selected));
  }

  method DeliveryOfQuote(rows: seq<RateRow>, at: int, c: Context, zone: Zone) returns (r: Result<Fulfillment, Error>)
    ensures r == QuoteWithin(rows, at, c, zone)
  {
    var selected := RatesOfQuote(QueryRates(rows, at, c), c);
    if selected.Err? { return Err(selected.error); }
    r := ChargeQuote(zone, selected.value, c.order);
  }

  method CourierOfQuote(s: Snapshot, localityId: int, t: Totals, express: bool) returns (r: Result<Fulfillment, Error>)
    ensures r == QuoteCourier(s, localityId, t, express)
  {
    var locality := FindLocality(s.localities, localityId);
    if locality.None? { return Err(DeliveryAreaUnsupported); }
    var zone := ChooseZone(locality.value.links, t.subtotal - t.discount);
    if zone.Err? { return Err(zone.error); }
    var c := RateContext(locality.value, zone.value, t, express);
    r := DeliveryOfQuote(s.rates, s.courierNow, c, zone.value);
  }

  method DeliveryOfOrder(rows: seq<RateRow>, at: int, c: Context, zone: Zone) returns (r: Result<Fulfillment, Error>)
    ensures r == OrderWithin(rows, at, c, zone)
  {
    var selected := RatesOfOrder(QueryRates(rows, at, c), c);
    if selected.Err? { return Err(selected.error); }
    r := ChargeOrder(zone, selected.value, c.order);
  }

  method CourierOfOrder(s: Snapshot, localityId: int, t: Totals, express: bool) returns (r: Result<Fulfillment, Error>)
    ensures r == OrderCourier(s, localityId, t, express)
  {
    var locality := FindLocality(s.localities, localityId);
    if locality.None? { return Err(DeliveryAreaUnsupported); }
    var zone := ChooseZone(locality.value.links, t.subtotal - t.discount);
    if zone.Err? { return Err(zone.error); }
    var c := RateContext(locality.value, zone.value, t, express);
    r := DeliveryOfOrder(s.rates, s.now, c, zone.value);
  }

  method Quote(s: Snapshot, r: Request) returns (q: Result<Quote, Error>)
    ensures q == QuoteSpec(s, r)
  {
    if !s.checkoutAllowed { return Err(CheckoutUnavailable); }
    if r.locality.Some? == r.pickup.Some? { return Err(FulfillmentSelectionRequired); }
    if r.express && r.pickup.Some? { return Err(ExpressPickupUnsupported); }
    if !DistinctBy(r.items, A.VariantOf) { return Err(DuplicateItem); }
    var fetched := Fetch(s.variants, r.items);
    if |fetched| != |r.items| { return Err(ProductUnavailable); }
    var priced := QuoteItems(fetched, s.now, r.items);
    if priced.Err? { return Err(priced.error); }
    var t := priced.value.totals;
    var discounted := Discounted(t);
    if discounted.Err? { return Err(MoneyOutOfRange); }
    var fulfillment: Result<Fulfillment, Error>;
    if r.pickup.Some? {
      fulfillment := Collect(s, r.pickup.value, discounted.value);
    } else {
      fulfillment := CourierOfQuote(s, r.locality.value, t, r.express);
    }
    if fulfillment.Err? { return Err(fulfillment.error); }
    return Finish(priced.value, fulfillment.value);
  }

  method PriceOrder(s: Snapshot, r: Request) returns (o: Result<Order, Error>)
    ensures o == OrderSpec(s, r)
  {
    var misshapen := RequestShape(r);
    if misshapen.Some? { return Err(misshapen.value); }
    if !s.checkoutAllowed || s.minimumAge.None? { return Err(CheckoutUnavailable); }
    var fetched := Fetch(s.variants, r.items);
    if |fetched| != |r.items| { return Err(ProductUnavailable); }
    var priced := OrderItems(fetched, s.minimumAge.value, r.items);
    if priced.Err? { return Err(priced.error); }
    var buckets := Buckets(fetched, s.now);
    if buckets.Err? { return Err(buckets.error); }
    var allocations := A.AllocateInventory(r.items, buckets.value);
    if allocations.None? { return Err(OutOfStock); }
    var t := priced.value.totals;
    var discounted := Discounted(t);
    if discounted.Err? { return Err(MoneyOutOfRange); }
    var fulfillment: Result<Fulfillment, Error>;
    if r.pickup.Some? {
      fulfillment := Collect(s, r.pickup.value, discounted.value);
    } else {
      fulfillment := CourierOfOrder(s, r.locality.value, t, r.express);
    }
    if fulfillment.Err? { return Err(fulfillment.error); }
    var quote := Finish(priced.value, fulfillment.value);
    if quote.Err? { return Err(quote.error); }
    return Ok(Order(quote.value, allocations.value));
  }
}
