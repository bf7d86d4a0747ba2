/** What the two pricing paths promise, and why an order never costs anything but what was quoted. */
module CheckoutProof {
  import opened Wrappers
  import opened Sums
  import opened Sorting
  import opened Money
  import opened Rates
  import opened CheckoutPricing
  import opened CourierAgreement
  import A = Allocation

  // One line.

  /** The parts of a line add up, none is negative, and the per-unit discount and tax that the
      order stores can be computed whenever the line can. */
  lemma LineMeaning(listPrice: int, promotion: Option<int>, quantity: int, taxRate: int)
    requires CalculateQuoteLine(listPrice, promotion, quantity, taxRate).Ok?
    ensures var c := CalculateQuoteLine(listPrice, promotion, quantity, taxRate).value;
      && 0 <= c.discount && 0 <= c.taxable && 0 <= c.tax
      && c.effectiveUnitPrice == promotion.GetOr(listPrice) <= listPrice
      && c.taxable == c.effectiveUnitPrice * quantity
      && c.listSubtotal == listPrice * quantity == c.taxable + c.discount
      && c.total == c.taxable + c.tax == c.listSubtotal - c.discount + c.tax
      && -5_000 < 10_000 * c.tax - c.taxable * taxRate <= 5_000
      && (quantity >= 1 ==>
        Add([listPrice, -c.effectiveUnitPrice]).Ok? && BasisPoints(c.effectiveUnitPrice, taxRate).Ok?)
  {
    var effective := promotion.GetOr(listPrice);
    AddTwo(listPrice * quantity, -(effective * quantity));
    BasisPointsRoundsHalfUp(effective * quantity, taxRate);
    AddTwo(effective * quantity, BasisPoints(effective * quantity, taxRate).value);
    AddTwo(listPrice, -effective);
    Products(effective, listPrice, quantity);
    BasisPointsMonotone(0, effective * quantity, taxRate);
    assert BasisPoints(0, taxRate).value == 0;
    if quantity >= 1 { BasisPointsMonotone(effective, effective * quantity, taxRate); }
  }

  lemma Products(effective: int, listPrice: int, quantity: int)
    requires 0 <= effective <= listPrice && quantity >= 0
    ensures 0 <= effective * quantity <= listPrice * quantity
    ensures quantity >= 1 ==> effective <= effective * quantity
  {
    assert listPrice * quantity == effective * quantity + (listPrice - effective) * quantity;
    if quantity >= 1 { assert effective * quantity == effective + effective * (quantity - 1); }
  }

  // The running totals are sums over the lines.

  function ListSubtotal(): Line -> int { (l: Line) => l.calculation.listSubtotal }
  function Discount(): Line -> int { (l: Line) => l.calculation.discount }
  function Tax(): Line -> int { (l: Line) => l.calculation.tax }
  function LineTotal(): Line -> int { (l: Line) => l.calculation.total }

  predicate LineAddsUp(l: Line) {
    var c := l.calculation;
    && 0 <= c.discount && 0 <= c.taxable && 0 <= c.tax
    && c.listSubtotal == c.taxable + c.discount && c.total == c.taxable + c.tax
  }

  ghost predicate AddsUp(p: Priced) {
    && p.totals.subtotal == Sum(p.lines, ListSubtotal())
    && p.totals.discount == Sum(p.lines, Discount())
    && p.totals.tax == Sum(p.lines, Tax())
    && forall l | l in p.lines :: LineAddsUp(l)
  }

  lemma AddLineAddsUp(p: Priced, l: Line, weight: int)
    requires AddsUp(p) && LineAddsUp(l) && AddLine(p, l, weight).Ok?
    ensures AddsUp(AddLine(p, l, weight).value) && AddLine(p, l, weight).value.lines == p.lines + [l]
  {
    AddTwo(p.totals.subtotal, l.calculation.listSubtotal);
    AddTwo(p.totals.discount, l.calculation.discount);
    AddTwo(p.totals.tax, l.calculation.tax);
    SumAppend(p.lines, l, ListSubtotal());
    SumAppend(p.lines, l, Discount());
    SumAppend(p.lines, l, Tax());
  }

  lemma PriceLineAddsUp(v: Variant, quantity: int, p: Priced)
    requires AddsUp(p) && PriceLine(v, quantity, p).Ok?
    ensures AddsUp(PriceLine(v, quantity, p).value)
    ensures var lines := PriceLine(v, quantity, p).value.lines;
      |lines| == |p.lines| + 1 && lines[..|p.lines|] == p.lines && lines[|p.lines|].variant == v.id &&
        lines[|p.lines|].quantity == quantity
  {
    LineMeaning(v.price, v.promotion, quantity, v.taxRate);
    AddLineAddsUp(p, Line(v.id, quantity, CalculateQuoteLine(v.price, v.promotion, quantity, v.taxRate).value),
      v.weight);
  }

  lemma {:induction false} QuoteLinesAddUp(fetched: seq<Variant>, now: int, items: seq<A.Request>, p: Priced)
    requires AddsUp(p) && QuoteLines(fetched, now, items, p).Ok?
    ensures AddsUp(QuoteLines(fetched, now, items, p).value)
    decreases |items|
  {
    if items != [] {
      var v := Find(fetched, items[0].variant).value;
      PriceLineAddsUp(v, items[0].quantity, p);
      QuoteLinesAddUp(fetched, now, items[1..], PriceLine(v, items[0].quantity, p).value);
    }
  }

  predicate LineFor(l: Line, item: A.Request) { l.variant == item.variant && l.quantity == item.quantity }

  /** These lines are the earlier ones followed by one for each item, in order. */
  predicate InOrder(earlier: seq<Line>, items: seq<A.Request>, lines: seq<Line>) {
    && |lines| == |earlier| + |items| && lines[..|earlier|] == earlier
    && forall k | 0 <= k < |items| :: LineFor(lines[|earlier| + k], items[k])
  }

  lemma LinesJoin(earlier: seq<Line>, next: seq<Line>, items: seq<A.Request>, lines: seq<Line>)
    requires items != [] && |next| == |earlier| + 1 && next[..|earlier|] == earlier
    requires LineFor(next[|earlier|], items[0]) && InOrder(next, items[1..], lines)
    ensures InOrder(earlier, items, lines)
  {
    assert lines[..|earlier|] == lines[..|next|][..|earlier|];
    assert lines[|earlier|] == lines[..|next|][|earlier|];
    forall k | 0 <= k < |items| ensures LineFor(lines[|earlier| + k], items[k]) {
      if k > 0 { assert items[1..][k - 1] == items[k] && lines[|next| + (k - 1)] == lines[|earlier| + k]; }
    }
  }

  /** Lines are priced in the order they were asked for. */
  lemma {:induction false} QuoteLinesInOrder(fetched: seq<Variant>, now: int, items: seq<A.Request>, p: Priced)
    requires AddsUp(p) && QuoteLines(fetched, now, items, p).Ok?
    ensures InOrder(p.lines, items, QuoteLines(fetched, now, items, p).value.lines)
    decreases |items|
  {
    if items != [] {
      var v := Find(fetched, items[0].variant).value;
      var next := PriceLine(v, items[0].quantity, p).value;
      PriceLineAddsUp(v, items[0].quantity, p);
      QuoteLinesInOrder(fetched, now, items[1..], next);
      LinesJoin(p.lines, next.lines, items, QuoteLines(fetched, now, items, p).value.lines);
    }
  }

  lemma AddedUpTotals(p: Priced)
    requires AddsUp(p)
    ensures p.totals.subtotal - p.totals.discount + p.totals.tax == Sum(p.lines, LineTotal())
    ensures 0 <= p.totals.discount <= p.totals.subtotal && 0 <= p.totals.tax
  {
    var net := (l: Line) => l.calculation.listSubtotal - l.calculation.discount;
    var taxable := (l: Line) => l.calculation.taxable;
    SumPlus(p.lines, net, Discount(), ListSubtotal());
    SumPlus(p.lines, net, Tax(), LineTotal());
    SumNonNegative(p.lines, net);
    SumNonNegative(p.lines, Discount());
    SumNonNegative(p.lines, Tax());
  }

  lemma QuoteParts(s: Snapshot, r: Request)
    requires QuoteSpec(s, r).Ok?
    ensures var q := QuoteSpec(s, r).value;
      && QuoteLines(Fetch(s.variants, r.items), s.now, r.items, NothingPriced) == Ok(q.priced)
      && Finish(q.priced, q.fulfillment) == Ok(q)
  {
    QuoteEnds(s, r, QuoteLines(Fetch(s.variants, r.items), s.now, r.items, NothingPriced).value);
  }

  lemma QuoteEnds(s: Snapshot, r: Request, p: Priced)
    requires (r.locality.Some? || r.pickup.Some?) && QuoteFrom(s, r, p).Ok?
    ensures var q := QuoteFrom(s, r, p).value; q.priced == p && Finish(p, q.fulfillment) == Ok(q)
  {
  }

  lemma FinishMeaning(p: Priced, f: Fulfillment)
    requires Finish(p, f).Ok?
    ensures var q := Finish(p, f).value;
      && q.grandTotal == p.totals.subtotal - p.totals.discount + p.totals.tax + f.deliveryTotal
      && (f.maxCod.Some? ==> q.grandTotal <= f.maxCod.value)
  {
    AddThree(p.totals.subtotal - p.totals.discount, p.totals.tax, f.deliveryTotal);
  }

  /** The grand total of a quote is the sum of its line totals and the delivery fee, one line per
      item in the order asked, and it respects the cash limit of the place of delivery. */
  lemma QuoteTotals(s: Snapshot, r: Request)
    requires QuoteSpec(s, r).Ok?
    ensures var q := QuoteSpec(s, r).value; var t := q.priced.totals;
      && q.grandTotal == Sum(q.priced.lines, LineTotal()) + q.fulfillment.deliveryTotal
      && q.grandTotal == t.subtotal - t.discount + t.tax + q.fulfillment.deliveryTotal
      && 0 <= t.discount <= t.subtotal && 0 <= t.tax
      && (q.fulfillment.maxCod.Some? ==> q.grandTotal <= q.fulfillment.maxCod.value)
      && |q.priced.lines| == |r.items|
      && forall k | 0 <= k < |r.items| :: LineFor(q.priced.lines[k], r.items[k])
  {
    var q := QuoteSpec(s, r).value;
    QuoteParts(s, r);
    FinishMeaning(q.priced, q.fulfillment);
    QuoteLinesAddUp(Fetch(s.variants, r.items), s.now, r.items, NothingPriced);
    QuoteLinesInOrder(Fetch(s.variants, r.items), s.now, r.items, NothingPriced);
    AddedUpTotals(q.priced);
  }

  lemma {:induction false} PresentMembers(limits: seq<Option<int>>)
    ensures forall x | x in limits && x.Some? :: x.value in Present(limits)
    ensures forall v | v in Present(limits) :: Some(v) in limits
  {
    if limits != [] {
      var n := |limits| - 1;
      PresentMembers(limits[..n]);
      assert forall x :: x in limits <==> x in limits[..n] || x == limits[n];
    }
  }

  lemma {:induction false} LowestMeaning(values: seq<int>)
    ensures Lowest(values).None? <==> values == []
    ensures Lowest(values).Some? ==>
      Lowest(values).value in values && forall v | v in values :: Lowest(values).value <= v
  {
    if values != [] {
      var n := |values| - 1;
      LowestMeaning(values[..n]);
      assert forall x :: x in values <==> x in values[..n] || x == values[n];
    }
  }

  /** The cash limit of these rates in a zone: the least of the limits that are set, if any is. */
  predicate IsLimit(limit: Option<int>, z: Zone, rates: seq<Rate>) {
    && (limit.Some? ==> limit == z.maxCod || exists r :: r in rates && r.maxCod == limit)
    && (z.maxCod.Some? ==> limit.Some? && limit.value <= z.maxCod.value)
    && forall r | r in rates && r.maxCod.Some? :: limit.Some? && limit.value <= r.maxCod.value
  }

  lemma LimitIsLowest(z: Zone, rates: seq<Rate>)
    ensures IsLimit(QuoteLimit(z, rates), z, rates)
  {
    var values := Present([z.maxCod]) + Present(Limits(rates));
    PresentMembers([z.maxCod]);
    PresentMembers(Limits(rates));
    LowestMeaning(values);
    forall r | r in rates && r.maxCod.Some? ensures r.maxCod.value in values {
      var i :| 0 <= i < |rates| && rates[i] == r;
      assert Limits(rates)[i] == r.maxCod && r.maxCod in Limits(rates);
    }
    forall v | v in Present(Limits(rates)) ensures exists r :: r in rates && r.maxCod == Some(v) {
      var i :| 0 <= i < |rates| && Limits(rates)[i] == Some(v);
      assert rates[i] in rates;
    }
    if z.maxCod.Some? { assert z.maxCod in [z.maxCod] && z.maxCod.value in values; }
  }

  /** The open zone of strictly highest priority, if there is one. */
  ghost predicate HighestZone(zones: seq<PrioritizedZone>, z: Zone) {
    exists i: nat :: i < |zones| && zones[i].zone == z && LowerElsewhere(zones, i)
  }

  ghost predicate LowerElsewhere(zones: seq<PrioritizedZone>, i: nat)
    requires i < |zones|
  {
    forall y | y in Without(zones, i) :: y.priority < zones[i].priority
  }

  lemma MoveHighest(a: seq<PrioritizedZone>, i: nat, b: seq<PrioritizedZone>) returns (k: nat)
    requires i < |a| && multiset(a) == multiset(b) && LowerElsewhere(a, i)
    ensures k < |b| && b[k] == a[i] && LowerElsewhere(b, k)
  {
    assert a[i] in multiset(b);
    k :| 0 <= k < |b| && b[k] == a[i];
    WithoutPermutes(a, i);
    WithoutPermutes(b, k);
    assert forall y :: y in Without(a, i) <==> y in multiset(Without(a, i));
    assert forall y :: y in Without(b, k) <==> y in multiset(Without(b, k));
  }

  lemma FirstElsewhere(sorted: seq<PrioritizedZone>, m: nat)
    requires m < |sorted| && SortedBy(sorted, ZoneBefore)
    ensures m > 0 ==> sorted[0] in Without(sorted, m) && sorted[0].priority >= sorted[m].priority
  {
    if m > 0 {
      assert sorted[0] == Without(sorted, m)[0];
      assert ZoneBefore(sorted[0], sorted[m]);
    }
  }

  /** Nothing ties with the first of these zones. */
  predicate FirstStandsOut(sorted: seq<PrioritizedZone>) {
    sorted != [] && (|sorted| == 1 || sorted[1].priority != sorted[0].priority)
  }

  lemma FirstIsHighest(sorted: seq<PrioritizedZone>)
    requires SortedBy(sorted, ZoneBefore) && FirstStandsOut(sorted)
    ensures LowerElsewhere(sorted, 0)
  {
    forall y | y in Without(sorted, 0) ensures y.priority < sorted[0].priority {
      assert Without(sorted, 0) == sorted[1..];
      var j :| 0 <= j < |sorted[1..]| && sorted[1..][j] == y;
      assert ZoneBefore(sorted[0], sorted[1]);
      if j > 0 { assert ZoneBefore(sorted[1], sorted[j + 1]); }
    }
  }

  lemma HighestIsFirst(zones: seq<PrioritizedZone>, sorted: seq<PrioritizedZone>, z: Zone)
    requires SortedBy(sorted, ZoneBefore) && multiset(zones) == multiset(sorted) && HighestZone(zones, z)
    ensures FirstStandsOut(sorted) && sorted[0].zone == z
  {
    var i: nat :| i < |zones| && zones[i].zone == z && LowerElsewhere(zones, i);
    var m := MoveHighest(zones, i, sorted);
    FirstElsewhere(sorted, m);
    assert m == 0;
    if |sorted| > 1 { assert sorted[1] == Without(sorted, 0)[0]; }
  }

  /** The zone of a courier delivery is the only open zone of highest priority; the database may
      return the links in any order. */
  lemma ZoneIsUniqueHighest(links: seq<ZoneLink>, order: int)
    ensures forall z :: QuoteZone(links, order) == Ok(z) <==>
      HighestZone(OpenZones(links), z) && !UnderMinimum(z.minOrder, order)
    ensures QuoteZone(links, order) == Err(DeliveryAreaUnsupported) <==> OpenZones(links) == []
  {
    var zones := OpenZones(links);
    var sorted := Sort(zones, ZoneBefore);
    SortPermutes(zones, ZoneBefore);
    SortSorts(zones, ZoneBefore);
    if FirstStandsOut(sorted) {
      FirstIsHighest(sorted);
      var k := MoveHighest(sorted, 0, zones);
      assert HighestZone(zones, sorted[0].zone);
    }
    forall z | HighestZone(zones, z) ensures FirstStandsOut(sorted) && sorted[0].zone == z {
      HighestIsFirst(zones, sorted, z);
    }
  }

  // Lines of the order against lines of the quote.

  /** Pricing alone, with neither stock nor age looked at. */
  ghost function PlainLines(fetched: seq<Variant>, items: seq<A.Request>, p: Priced): Result<Priced, Error>
    decreases |items|
  {
    if items == [] then Ok(p)
    else
      match Find(fetched, items[0].variant)
      case None => Err(ProductUnavailable)
      case Some(v) =>
        var next :- PriceLine(v, items[0].quantity, p);
        PlainLines(fetched, items[1..], next)
  }

  predicate InStock(fetched: seq<Variant>, now: int, items: seq<A.Request>) {
    forall k | 0 <= k < |items| :: StockFor(fetched, now, items[k])
  }

  predicate StockFor(fetched: seq<Variant>, now: int, item: A.Request) {
    var v := Find(fetched, item.variant);
    v.Some? && Available(v.value, now) >= item.quantity
  }

  predicate AgesAllow(fetched: seq<Variant>, minimumAge: int, items: seq<A.Request>) {
    forall k | 0 <= k < |items| :: AgeFor(fetched, minimumAge, items[k])
  }

  predicate AgeFor(fetched: seq<Variant>, minimumAge: int, item: A.Request) {
    var v := Find(fetched, item.variant);
    v.Some? && AgeAllows(v.value, minimumAge)
  }

  predicate AllFound(fetched: seq<Variant>, items: seq<A.Request>) {
    forall k | 0 <= k < |items| :: Find(fetched, items[k].variant).Some?
  }

  lemma {:induction false} QuoteLinesIff(fetched: seq<Variant>, now: int, items: seq<A.Request>, p: Priced)
    ensures var plain := PlainLines(fetched, items, p); var quoted := QuoteLines(fetched, now, items, p);
      && (quoted.Ok? <==> plain.Ok? && InStock(fetched, now, items)) && (quoted.Ok? ==> quoted == plain)
      && (plain.Ok? ==> AllFound(fetched, items))
    decreases |items|
  {
    if items != [] && Find(fetched, items[0].variant).Some? {
      var next := PriceLine(Find(fetched, items[0].variant).value, items[0].quantity, p);
      if next.Ok? { QuoteLinesIff(fetched, now, items[1..], next.value); }
      assert items == [items[0]] + items[1..];
      assert InStock(fetched, now, items) ==> StockFor(fetched, now, items[0]);
    }
  }

  lemma {:induction false} OrderLinesIff(fetched: seq<Variant>, minimumAge: int, items: seq<A.Request>, p: Priced)
    ensures var plain := PlainLines(fetched, items, p); var ordered := OrderLines(fetched, minimumAge, items, p);
      && (ordered.Ok? <==> plain.Ok? && AgesAllow(fetched, minimumAge, items)) && (ordered.Ok? ==> ordered == plain)
    decreases |items|
  {
    if items != [] && Find(fetched, items[0].variant).Some? {
      var next := PriceLine(Find(fetched, items[0].variant).value, items[0].quantity, p);
      if next.Ok? { OrderLinesIff(fetched, minimumAge, items[1..], next.value); }
      assert items == [items[0]] + items[1..];
      assert AgesAllow(fetched, minimumAge, items) ==> AgeFor(fetched, minimumAge, items[0]);
    }
  }

  // Stock of the order against stock of the quote.

  predicate QuantitiesSound(reservations: seq<Reservation>, now: int) {
    forall r | r in reservations && Counts(r, now) :: 0 < r.quantity <= MAX_SAFE
  }

  /** Reservations are positive and never promise more than is on hand. */
  predicate SoundStock(i: Inventory, now: int) {
    QuantitiesSound(i.reservations, now) && Safe(Reserved(i.reservations, now)) &&
      Reserved(i.reservations, now) <= i.onHand
  }

  predicate SoundVariant(v: Variant, now: int) { forall i | i in v.inventory && i.eligible :: SoundStock(i, now) }

  predicate SoundVariants(variants: seq<Variant>, now: int) { forall v | v in variants :: SoundVariant(v, now) }

  lemma ReservedNonNegative(reservations: seq<Reservation>, now: int)
    requires QuantitiesSound(reservations, now)
    ensures Reserved(reservations, now) >= 0
  {
    SumNonNegative(reservations, Counted(now));
  }

  lemma {:induction false} ReservedCheckedIff(reservations: seq<Reservation>, now: int)
    ensures ReservedChecked(reservations, now).Ok? <==>
      QuantitiesSound(reservations, now) && Safe(Reserved(reservations, now))
    ensures ReservedChecked(reservations, now).Ok? ==>
      ReservedChecked(reservations, now).value == Reserved(reservations, now)
  {
    if reservations != [] {
      var front, last := reservations[..|reservations| - 1], reservations[|reservations| - 1];
      assert reservations == front + [last];
      ReservedCheckedIff(front, now);
      if QuantitiesSound(front, now) { ReservedNonNegative(front, now); }
      assert QuantitiesSound(reservations, now) <==>
        QuantitiesSound(front, now) && (Counts(last, now) ==> 0 < last.quantity <= MAX_SAFE);
    }
  }

  lemma {:induction false} BucketsOfIff(inventory: seq<Inventory>, variant: int, now: int)
    ensures BucketsOf(inventory, variant, now).Ok? <==> forall i | i in inventory && i.eligible :: SoundStock(i, now)
  {
    if inventory != [] {
      var front, last := inventory[..|inventory| - 1], inventory[|inventory| - 1];
      BucketsOfIff(front, variant, now);
      ReservedCheckedIff(last.reservations, now);
      assert inventory == front + [last];
    }
  }

  lemma {:induction false} BucketsOfStock(inventory: seq<Inventory>, variant: int, now: int, which: int)
    requires BucketsOf(inventory, variant, now).Ok?
    ensures A.Stock(BucketsOf(inventory, variant, now).value, A.OfVariant(which)) ==
      if variant == which then Sum(inventory, AvailableIn(now)) else 0
  {
    if inventory != [] {
      var front, last := inventory[..|inventory| - 1], inventory[|inventory| - 1];
      BucketsOfStock(front, variant, now, which);
      if last.eligible {
        ReservedCheckedIff(last.reservations, now);
        var bucket := A.Bucket(last.id, variant, last.onHand - Reserved(last.reservations, now));
        SumAppend(BucketsOf(front, variant, now).value, bucket, A.Held(A.OfVariant(which)));
      }
    }
  }

  function AvailableOf(now: int, which: int): Variant -> int {
    (v: Variant) => if v.id == which then Available(v, now) else 0
  }

  lemma {:induction false} BucketsIff(fetched: seq<Variant>, now: int, which: int)
    ensures var b := Buckets(fetched, now);
      && (b.Ok? <==> SoundVariants(fetched, now))
      && (b.Ok? ==> A.Stock(b.value, A.OfVariant(which)) == Sum(fetched, AvailableOf(now, which)))
  {
    if fetched != [] {
      var front, last := fetched[..|fetched| - 1], fetched[|fetched| - 1];
      BucketsIff(front, now, which);
      BucketsOfIff(last.inventory, last.id, now);
      assert fetched == front + [last];
      assert SoundVariants(fetched, now) <==> SoundVariants(front, now) && SoundVariant(last, now);
      if Buckets(fetched, now).Ok? {
        BucketsOfStock(last.inventory, last.id, now, which);
        SumConcat(Buckets(front, now).value, BucketsOf(last.inventory, last.id, now).value, A.Held(A.OfVariant(which)));
      }
    }
  }

  lemma {:induction false} BucketsError(fetched: seq<Variant>, now: int)
    ensures Buckets(fetched, now).Err? ==> Buckets(fetched, now).error == InventoryInvariantBreach
  {
    if fetched != [] {
      BucketsError(fetched[..|fetched| - 1], now);
      RowsError(fetched[|fetched| - 1].inventory, fetched[|fetched| - 1].id, now);
    }
  }

  lemma {:induction false} RowsError(inventory: seq<Inventory>, variant: int, now: int)
    ensures BucketsOf(inventory, variant, now).Err? ==>
      BucketsOf(inventory, variant, now).error == InventoryInvariantBreach
  {
    if inventory != [] {
      RowsError(inventory[..|inventory| - 1], variant, now);
      SumError(inventory[|inventory| - 1].reservations, now);
    }
  }

  lemma {:induction false} SumError(reservations: seq<Reservation>, now: int)
    ensures ReservedChecked(reservations, now).Err? ==>
      ReservedChecked(reservations, now).error == InventoryInvariantBreach
  {
    if reservations != [] { SumError(reservations[..|reservations| - 1], now); }
  }

  function VariantId(v: Variant): int { v.id }

  lemma {:induction false} FetchDistinct(variants: seq<Variant>, items: seq<A.Request>)
    requires DistinctBy(variants, VariantId)
    ensures DistinctBy(Fetch(variants, items), VariantId)
  {
    if variants != [] {
      var front, last := variants[..|variants| - 1], variants[|variants| - 1];
      FetchDistinct(front, items);
      forall v | v in front ensures VariantId(v) != last.id {
        var j :| 0 <= j < |front| && front[j] == v;
        assert VariantId(variants[j]) != VariantId(variants[|variants| - 1]);
      }
    }
  }

  /** The buckets of a variant hold together what the quote calls available. */
  lemma StockIsAvailable(fetched: seq<Variant>, now: int, which: int)
    requires DistinctBy(fetched, VariantId) && Buckets(fetched, now).Ok? && Find(fetched, which).Some?
    ensures A.Stock(Buckets(fetched, now).value, A.OfVariant(which)) == Available(Find(fetched, which).value, now)
  {
    BucketsIff(fetched, now, which);
    var v := Find(fetched, which).value;
    var k :| 0 <= k < |fetched| && fetched[k] == v;
    forall j | 0 <= j < |fetched| && j != k ensures AvailableOf(now, which)(fetched[j]) == 0 {
      assert VariantId(fetched[j]) != VariantId(fetched[k]);
    }
    SumSingle(fetched, AvailableOf(now, which), k);
  }

  lemma RequestedOnce(items: seq<A.Request>, k: nat)
    requires DistinctBy(items, A.VariantOf) && k < |items|
    ensures A.Requested(items, items[k].variant) == A.Positive(items[k].quantity)
  {
    forall j | 0 <= j < |items| && j != k ensures A.Wanted(items[k].variant)(items[j]) == 0 {
      assert A.VariantOf(items[j]) != A.VariantOf(items[k]);
    }
    SumSingle(items, A.Wanted(items[k].variant), k);
  }

  lemma RequestedNever(items: seq<A.Request>, v: int)
    requires forall k | 0 <= k < |items| :: items[k].variant != v
    ensures A.Requested(items, v) == 0
  {
    SumNothing(items, A.Wanted(v));
  }

  lemma AvailableNonNegative(v: Variant, now: int)
    ensures Available(v, now) >= 0
  {
    SumNonNegative(v.inventory, AvailableIn(now));
  }

  /** The greedy allocation of the order succeeds exactly when the quote sees enough of every line. */
  lemma AllocatorAgreesWithQuote(fetched: seq<Variant>, now: int, items: seq<A.Request>)
    requires DistinctBy(fetched, VariantId) && DistinctBy(items, A.VariantOf)
    requires Buckets(fetched, now).Ok? && AllFound(fetched, items)
    ensures A.Allocate(items, Buckets(fetched, now).value).Some? <==> InStock(fetched, now, items)
  {
    var buckets := Buckets(fetched, now).value;
    A.AllocateFailsIffShort(items, buckets);
    forall k | 0 <= k < |items|
      ensures StockFor(fetched, now, items[k]) <==>
        A.Requested(items, items[k].variant) <= A.Stock(buckets, A.OfVariant(items[k].variant))
    {
      StockIsAvailable(fetched, now, items[k].variant);
      RequestedOnce(items, k);
      AvailableNonNegative(Find(fetched, items[k].variant).value, now);
    }
    if InStock(fetched, now, items) {
      forall v: int ensures A.Requested(items, v) <= A.Stock(buckets, A.OfVariant(v)) {
        if k :| 0 <= k < |items| && items[k].variant == v {
          assert StockFor(fetched, now, items[k]);
        } else {
          RequestedNever(items, v);
          A.StockNonNegative(buckets, A.OfVariant(v));
        }
      }
    } else {
      var k :| 0 <= k < |items| && !StockFor(fetched, now, items[k]);
      assert A.Requested(items, items[k].variant) > A.Stock(buckets, A.OfVariant(items[k].variant));
    }
  }

  // The two paths.

  /** What the order asks of the snapshot beyond a quote: an age policy every product fits, sound
      reservations, and no negative fee among the chosen rates. */
  predicate OrderAccepts(s: Snapshot, r: Request, q: Quote) {
    var fetched := Fetch(s.variants, r.items);
    && s.minimumAge.Some? && AgesAllow(fetched, s.minimumAge.value, r.items)
    && SoundVariants(fetched, s.now)
    && NoNegativeFee(q.fulfillment.rates)
  }

  /** Past the request checks both paths price the same lines, and the order's stock check is the
      quote's. */
  lemma LinesAgree(fetched: seq<Variant>, now: int, minimumAge: int, items: seq<A.Request>)
    requires DistinctBy(fetched, VariantId) && DistinctBy(items, A.VariantOf)
    ensures
      var quoted := QuoteLines(fetched, now, items, NothingPriced);
      var ordered := OrderLines(fetched, minimumAge, items, NothingPriced);
      var reserved := Reserve(fetched, now, items);
      && (ordered.Ok? && reserved.Ok? <==>
        quoted.Ok? && AgesAllow(fetched, minimumAge, items) && SoundVariants(fetched, now))
      && (ordered.Ok? && reserved.Ok? ==> quoted == ordered)
      && (quoted.Ok? ==> quoted == PlainLines(fetched, items, NothingPriced))
  {
    QuoteLinesIff(fetched, now, items, NothingPriced);
    OrderLinesIff(fetched, minimumAge, items, NothingPriced);
    BucketsIff(fetched, now, 0);
    if PlainLines(fetched, items, NothingPriced).Ok? && Buckets(fetched, now).Ok? {
      AllocatorAgreesWithQuote(fetched, now, items);
    }
  }

  /** The fee of this request is chosen among the same rates at both readings of the clock: a pickup
      has none, and a courier delivery depends on the address and on the totals of the lines. */
  ghost predicate SteadyFor(s: Snapshot, r: Request) {
    var p := PlainLines(Fetch(s.variants, r.items), r.items, NothingPriced);
    r.locality.Some? && r.pickup.None? && p.Ok? ==> SteadyChoices(s, r.locality.value, p.value.totals, r.express)
  }

  /** Two readings of one time choose the same rates. */
  lemma SteadyClock(s: Snapshot, r: Request)
    requires s.now == s.courierNow
    ensures SteadyFor(s, r)
  {
  }

  predicate SteadyEnd(s: Snapshot, r: Request, p: Priced)
    requires r.locality.Some? || r.pickup.Some?
  {
    r.pickup.None? ==> SteadyChoices(s, r.locality.value, p.totals, r.express)
  }

  predicate PayableEnd(quoted: Result<Quote, Error>) {
    quoted.Ok? && NoNegativeFee(quoted.value.fulfillment.rates)
  }

  /** What is left to do once the delivery is known. */
  function Ended(p: Priced, f: Result<Fulfillment, Error>): Result<Quote, Error> {
    var _ :- Discounted(p.totals);
    var delivery :- f;
    Finish(p, delivery)
  }

  lemma Ends(s: Snapshot, r: Request, p: Priced)
    requires r.locality.Some? && r.pickup.None?
    ensures QuoteFrom(s, r, p) == Ended(p, QuoteCourier(s, r.locality.value, p.totals, r.express))
    ensures OrderFrom(s, r, p) == Ended(p, OrderCourier(s, r.locality.value, p.totals, r.express))
  {
  }

  lemma SameTermsEnd(p: Priced, quoted: Result<Fulfillment, Error>, ordered: Result<Fulfillment, Error>)
    ensures SameTerms(quoted, ordered) ==>
      (Ended(p, ordered).Ok? <==> PayableEnd(Ended(p, quoted))) &&
      (Ended(p, ordered).Ok? ==> Ended(p, ordered) == Ended(p, quoted))
    ensures Ended(p, quoted).Ok? && Ended(p, quoted) == Ended(p, ordered) ==> quoted == ordered
    ensures Ended(p, ordered).Ok? || PayableEnd(Ended(p, quoted)) ==> Delivers(quoted, ordered)
  {
  }

  lemma CourierEndsAgree(s: Snapshot, r: Request, p: Priced)
    requires r.locality.Some? && r.pickup.None?
    ensures var quoted := QuoteFrom(s, r, p); var ordered := OrderFrom(s, r, p);
      var steady := SteadyChoices(s, r.locality.value, p.totals, r.express);
      && (steady ==> (ordered.Ok? <==> PayableEnd(quoted)) && (ordered.Ok? ==> ordered == quoted))
      && (ordered.Ok? || PayableEnd(quoted) ==> (quoted == ordered <==> steady))
  {
    var quoted := QuoteCourier(s, r.locality.value, p.totals, r.express);
    var ordered := OrderCourier(s, r.locality.value, p.totals, r.express);
    Ends(s, r, p);
    CourierAgrees(s, r.locality.value, p.totals, r.express);
    SameTermsEnd(p, quoted, ordered);
  }

  lemma PickupEndsAgree(s: Snapshot, r: Request, p: Priced)
    requires r.pickup.Some?
    ensures QuoteFrom(s, r, p) == OrderFrom(s, r, p)
    ensures QuoteFrom(s, r, p).Ok? ==> QuoteFrom(s, r, p).value.fulfillment.rates == []
  {
  }

  lemma EndsAgree(s: Snapshot, r: Request, p: Priced)
    requires r.locality.Some? || r.pickup.Some?
    ensures var quoted := QuoteFrom(s, r, p); var ordered := OrderFrom(s, r, p);
      && (SteadyEnd(s, r, p) ==> (ordered.Ok? <==> PayableEnd(quoted)) && (ordered.Ok? ==> ordered == quoted))
      && (ordered.Ok? || PayableEnd(quoted) ==> (quoted == ordered <==> SteadyEnd(s, r, p)))
  {
    if r.pickup.None? { CourierEndsAgree(s, r, p); } else { PickupEndsAgree(s, r, p); }
  }

  /** The order succeeds, at what the quote says. */
  predicate SameQuote(s: Snapshot, r: Request) {
    OrderSpec(s, r).Ok? && QuoteSpec(s, r) == Ok(OrderSpec(s, r).value.quote)
  }

  /** An order and a quote on the same snapshot, when the same rates are chosen at both readings of
      the clock: the order succeeds exactly when the quote does and the order's own conditions hold.
      And whenever one of these two succeeds, the order is the quote, with the same lines, totals,
      delivery and grand total, exactly in that case. */
  lemma OrderRefinesQuote(s: Snapshot, r: Request)
    requires DistinctBy(s.variants, VariantId)
    ensures SteadyFor(s, r) ==>
      (OrderSpec(s, r).Ok? <==> QuoteSpec(s, r).Ok? && OrderAccepts(s, r, QuoteSpec(s, r).value))
    ensures OrderSpec(s, r).Ok? || (QuoteSpec(s, r).Ok? && OrderAccepts(s, r, QuoteSpec(s, r).value)) ==>
      (SameQuote(s, r) <==> SteadyFor(s, r))
  {
    var fetched := Fetch(s.variants, r.items);
    FetchDistinct(s.variants, r.items);
    if s.minimumAge.Some? && DistinctBy(r.items, A.VariantOf) && r.locality.Some? != r.pickup.Some? {
      LinesAgree(fetched, s.now, s.minimumAge.value, r.items);
      var plain := PlainLines(fetched, r.items, NothingPriced);
      if plain.Ok? { EndsAgree(s, r, plain.value); }
    }
  }

  /** What an order takes is what its lines ask for, from buckets that hold it, each bucket once when
      inventory rows have distinct ids. */
  lemma OrderAllocations(s: Snapshot, r: Request, variant: int, item: int)
    requires OrderSpec(s, r).Ok?
    ensures var o := OrderSpec(s, r).value; var buckets := Buckets(Fetch(s.variants, r.items), s.now).value;
      && A.Handed(o.allocations, A.OfVariant(variant)) == A.Requested(r.items, variant)
      && A.Handed(o.allocations, A.OfItem(item)) <= A.Stock(buckets, A.OfItem(item))
      && (DistinctBy(buckets, A.IdOf) ==> DistinctBy(o.allocations, A.ItemOf))
  {
    var buckets := Buckets(Fetch(s.variants, r.items), s.now).value;
    A.AllocateMeetsRequests(r.items, buckets, variant, item);
    if DistinctBy(buckets, A.IdOf) { A.AllocateUsesBucketsOnce(r.items, buckets); }
  }

  lemma OrderEndIgnoresLaterClock(s: Snapshot, r: Request, p: Priced, later: int)
    requires r.locality.Some? || r.pickup.Some?
    ensures OrderFrom(s.(courierNow := later), r, p) == OrderFrom(s, r, p)
  {
    if r.pickup.None? {
      assert OrderCourier(s.(courierNow := later), r.locality.value, p.totals, r.express) ==
        OrderCourier(s, r.locality.value, p.totals, r.express);
    }
  }

  /** The order reads one clock only. */
  lemma OrderIgnoresLaterClock(s: Snapshot, r: Request, later: int)
    ensures OrderSpec(s.(courierNow := later), r) == OrderSpec(s, r)
  {
    if RequestShape(r).None? && s.minimumAge.Some? {
      var p := OrderLines(Fetch(s.variants, r.items), s.minimumAge.value, r.items, NothingPriced);
      if p.Ok? { OrderEndIgnoresLaterClock(s, r, p.value, later); }
    }
  }

  /** Without a negative fee the delivery total is the sum of the chosen fees, or nothing. */
  lemma DeliveryNonNegative(z: Zone, rates: seq<Rate>, order: int)
    requires NoNegativeFee(rates) && OrderTotal(z, rates, order).Ok?
    ensures OrderTotal(z, rates, order).value >= 0
  {
    SumNonNegative(Fees(rates), v => v);
  }

  lemma OrderFulfillment(s: Snapshot, r: Request, p: Priced)
    requires (r.locality.Some? || r.pickup.Some?) && OrderFrom(s, r, p).Ok?
    ensures OrderFrom(s, r, p).value.fulfillment.deliveryTotal >= 0
  {
    if r.pickup.None? { CourierDelivery(s, r.locality.value, p.totals, r.express); }
  }

  lemma CourierDelivery(s: Snapshot, localityId: int, t: Totals, express: bool)
    requires OrderCourier(s, localityId, t, express).Ok?
    ensures OrderCourier(s, localityId, t, express).value.deliveryTotal >= 0
  {
    var l := FindLocality(s.localities, localityId).value;
    var z := OrderZone(l.links, t.subtotal - t.discount).value;
    OrderCourierIs(s, localityId, t, express, l, z);
    WithinNonNegative(s.rates, s.now, RateContext(l, z, t, express), z);
  }

  lemma WithinNonNegative(rows: seq<RateRow>, at: int, c: Context, z: Zone)
    requires OrderWithin(rows, at, c, z).Ok?
    ensures OrderWithin(rows, at, c, z).value.deliveryTotal >= 0
  {
    DeliveryNonNegative(z, OrderRates(QueryRates(rows, at, c), c).value, c.order);
  }

  /** An order never has a negative part: neither its delivery fee nor its grand total. */
  lemma OrderNonNegative(s: Snapshot, r: Request)
    requires DistinctBy(s.variants, VariantId) && OrderSpec(s, r).Ok?
    ensures var q := OrderSpec(s, r).value.quote; 0 <= q.fulfillment.deliveryTotal <= q.grandTotal
  {
    var at := s.(courierNow := s.now);
    OrderIgnoresLaterClock(s, r, s.now);
    SteadyClock(at, r);
    OrderRefinesQuote(at, r);
    QuoteTotals(at, r);
    OrderFulfillment(s, r, OrderLines(Fetch(s.variants, r.items), s.minimumAge.value, r.items, NothingPriced).value);
  }
}
