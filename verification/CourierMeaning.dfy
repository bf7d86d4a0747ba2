/** What a courier delivery costs, without saying how it is found: the one highest open zone, the best
    rate of each kind among all the rates valid at the time, their fees and the lowest limit. */
module CourierMeaning {
  import opened Wrappers
  import opened Sums
  import opened Sorting
  import opened Rates
  import opened CheckoutPricing
  import opened CheckoutProof
  import opened CourierAgreement

  function KindOf(r: Rate): RateType { r.kind }

  /** The best rate of each of these kinds that has an eligible rate, and nothing else. */
  ghost predicate BestSurcharges(valid: seq<Rate>, c: Context, kinds: seq<RateType>, chosen: seq<Rate>) {
    && (forall r | r in chosen :: r.kind in kinds && IsBest(valid, r, c, Surcharge(r.kind)))
    && DistinctBy(chosen, KindOf)
    && forall kind | kind in kinds && Wants(valid, c, kind) :: HasKind(chosen, kind)
  }

  predicate Wants(valid: seq<Rate>, c: Context, kind: RateType) {
    exists x | x in valid :: Eligible(x, c, Surcharge(kind))
  }

  predicate HasKind(chosen: seq<Rate>, kind: RateType) { exists r | r in chosen :: r.kind == kind }

  lemma SurchargeMeans(valid: seq<Rate>, c: Context, kind: RateType)
    ensures var choice := SelectSurchargeRate(Filter(valid, c), c, kind);
      && (choice.Ok? && choice.value.Some? ==>
        IsBest(valid, choice.value.value, c, Surcharge(kind)) && choice.value.value.kind == kind)
      && (choice == Ok(None) ==> !Wants(valid, c, kind))
  {
    FilterChangesNothing(valid, c, kind);
    SelectionMeaning(valid, c, Surcharge(kind), false);
    var choice := SelectSurchargeRate(valid, c, kind);
    if choice.Ok? && choice.value.Some? {
      var i: nat :| i < |valid| && valid[i] == choice.value.value && StrictlyBest(valid, i, c, Surcharge(kind));
    }
  }

  lemma {:induction false} SurchargesMean(valid: seq<Rate>, c: Context, kinds: seq<RateType>)
    requires DistinctBy(kinds, Same) && QuoteSurcharges(Filter(valid, c), c, kinds).Ok?
    ensures BestSurcharges(valid, c, kinds, QuoteSurcharges(Filter(valid, c), c, kinds).value)
    decreases |kinds|
  {
    if kinds != [] {
      var rest := QuoteSurcharges(Filter(valid, c), c, kinds[1..]).value;
      var first := SelectSurchargeRate(Filter(valid, c), c, kinds[0]).value;
      SurchargeMeans(valid, c, kinds[0]);
      forall i, j | 0 <= i < j < |kinds[1..]| ensures Same(kinds[1..][i]) != Same(kinds[1..][j]) {
        assert Same(kinds[i + 1]) != Same(kinds[j + 1]);
      }
      SurchargesMean(valid, c, kinds[1..]);
      forall r | r in rest ensures r.kind != kinds[0] {
        var k :| 0 <= k < |kinds[1..]| && kinds[1..][k] == r.kind;
        assert Same(kinds[0]) != Same(kinds[k + 1]);
      }
      JoinSurcharges(valid, c, kinds, first, rest);
    }
  }

  lemma JoinSurcharges(valid: seq<Rate>, c: Context, kinds: seq<RateType>, first: Option<Rate>, rest: seq<Rate>)
    requires kinds != [] && BestSurcharges(valid, c, kinds[1..], rest) && forall r | r in rest :: r.kind != kinds[0]
    requires first.Some? ==> first.value.kind == kinds[0] && IsBest(valid, first.value, c, Surcharge(kinds[0]))
    requires first.None? ==> !Wants(valid, c, kinds[0])
    ensures BestSurcharges(valid, c, kinds, (if first.Some? then [first.value] else []) + rest)
  {
    var chosen := (if first.Some? then [first.value] else []) + rest;
    assert forall r :: r in chosen <==> (first == Some(r) || r in rest);
    assert forall k :: k in kinds <==> k == kinds[0] || k in kinds[1..];
    assert forall j | 0 <= j < |rest| :: rest[j] in rest && KindOf(rest[j]) != kinds[0];
    forall kind | kind in kinds && Wants(valid, c, kind) ensures HasKind(chosen, kind) {
      if kind in kinds[1..] && HasKind(rest, kind) {
        var r :| r in rest && r.kind == kind;
        assert r in chosen;
      } else {
        assert first.value in chosen;
      }
    }
  }

  /** The rates of a delivery: the best base rate, then the best surcharges. */
  ghost predicate BestRates(valid: seq<Rate>, c: Context, rates: seq<Rate>) {
    && rates != [] && IsBest(valid, rates[0], c, BaseRate)
    && BestSurcharges(valid, c, QuoteSurchargeTypes, rates[1..])
    && (c.express ==> HasKind(rates[1..], ExpressSurcharge))
  }

  lemma BaseMeans(valid: seq<Rate>, c: Context)
    ensures forall r :: SelectBaseRate(Filter(valid, c), c) == Ok(r) ==> IsBest(valid, r, c, BaseRate)
  {
    FilterChangesNothing(valid, c, Base);
    SelectBaseRateMeaning(valid, c);
  }

  lemma ExpressMeans(rates: seq<Rate>, c: Context)
    requires QuoteRates(rates, c).Ok?
    ensures c.express ==> HasKind(QuoteRates(rates, c).value[1..], ExpressSurcharge)
  {
    RatesParts(rates, c);
  }

  lemma RatesMean(valid: seq<Rate>, c: Context)
    requires QuoteRates(Filter(valid, c), c).Ok?
    ensures BestRates(valid, c, QuoteRates(Filter(valid, c), c).value)
  {
    RatesParts(Filter(valid, c), c);
    BaseMeans(valid, c);
    SurchargesMean(valid, c, QuoteSurchargeTypes);
    ExpressMeans(Filter(valid, c), c);
  }

  /** What is charged for these rates in a zone. */
  predicate ChargedFor(z: Zone, order: int, f: Fulfillment) {
    && f.deliveryTotal ==
      (if z.freeThreshold.Some? && order >= z.freeThreshold.value then 0 else Sum(Fees(f.rates), v => v))
    && IsLimit(f.maxCod, z, f.rates)
  }

  /** The terms of a delivery to a locality at a time. */
  ghost predicate Terms(s: Snapshot, now: int, localityId: int, t: Totals, express: bool, z: Zone, f: Fulfillment) {
    var order := t.subtotal - t.discount;
    && FindLocality(s.localities, localityId).Some?
    && var l := FindLocality(s.localities, localityId).value;
       && HighestZone(OpenZones(l.links), z) && !UnderMinimum(z.minOrder, order)
       && BestRates(ValidRates(s.rates, now), RateContext(l, z, t, express), f.rates)
       && ChargedFor(z, order, f)
  }

  /** A quoted delivery goes through the one highest open zone, at the best rate of every kind valid
      when the rates were read, for the sum of their fees or for nothing from the threshold on, up to
      the lowest limit. */
  lemma QuoteCourierMeaning(s: Snapshot, localityId: int, t: Totals, express: bool) returns (z: Zone)
    requires QuoteCourier(s, localityId, t, express).Ok?
    ensures Terms(s, s.courierNow, localityId, t, express, z, QuoteCourier(s, localityId, t, express).value)
  {
    var l := FindLocality(s.localities, localityId).value;
    z := QuoteZone(l.links, t.subtotal - t.discount).value;
    ZoneIsUniqueHighest(l.links, t.subtotal - t.discount);
    QuoteCourierIs(s, localityId, t, express, l, z);
    WithinMeans(s.rates, s.courierNow, RateContext(l, z, t, express), z);
  }

  lemma WithinMeans(rows: seq<RateRow>, at: int, c: Context, z: Zone)
    requires QuoteWithin(rows, at, c, z).Ok?
    ensures var f := QuoteWithin(rows, at, c, z).value;
      BestRates(ValidRates(rows, at), c, f.rates) && ChargedFor(z, c.order, f)
  {
    QueryIsFilter(rows, at, c);
    RatesMean(ValidRates(rows, at), c);
    LimitIsLowest(z, QuoteRates(QueryRates(rows, at, c), c).value);
  }

  /** An ordered delivery is on the same terms, at its own time, and no chosen fee is negative. */
  lemma OrderCourierMeaning(s: Snapshot, localityId: int, t: Totals, express: bool) returns (z: Zone)
    requires OrderCourier(s, localityId, t, express).Ok?
    ensures var f := OrderCourier(s, localityId, t, express).value;
      Terms(s, s.now, localityId, t, express, z, f) && NoNegativeFee(f.rates) && f.deliveryTotal >= 0
  {
    var at := s.(courierNow := s.now);
    assert OrderCourier(at, localityId, t, express) == OrderCourier(s, localityId, t, express);
    CourierAgrees(at, localityId, t, express);
    z := QuoteCourierMeaning(at, localityId, t, express);
    CourierDelivery(s, localityId, t, express);
  }
}
