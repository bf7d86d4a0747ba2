/** What each refusal of a quote or an order says of the request and of the tables. */
module QuoteRefusals {
  import opened Wrappers
  import opened Sums
  import opened Sorting
  import opened Rates
  import opened CheckoutPricing
  import opened CourierAgreement
  import opened CheckoutProof
  import opened CourierMeaning
  import opened DeliveryFacts

  // Zones.

  /** Two links serve the locality at the highest priority. */
  predicate TopShared(links: seq<ZoneLink>) {
    exists i, j | 0 <= i < |links| && 0 <= j < |links| && i != j :: SharesTop(links, i, j)
  }

  predicate SharesTop(links: seq<ZoneLink>, i: nat, j: nat)
    requires i < |links| && j < |links|
  {
    && Serves(links[i]) && Serves(links[j]) && PriorityOf(links[i]) == PriorityOf(links[j])
    && forall k | 0 <= k < |links| && Serves(links[k]) :: PriorityOf(links[k]) <= PriorityOf(links[i])
  }

  predicate Unserved(links: seq<ZoneLink>) { forall i | 0 <= i < |links| :: !Serves(links[i]) }

  lemma {:induction false} TopmostLink(links: seq<ZoneLink>) returns (i: nat)
    requires !Unserved(links)
    ensures i < |links| && Serves(links[i])
    ensures forall k | 0 <= k < |links| && Serves(links[k]) :: PriorityOf(links[k]) <= PriorityOf(links[i])
  {
    var n := |links| - 1;
    if Unserved(links[..n]) {
      assert forall k | 0 <= k < n :: links[..n][k] == links[k];
      i := n;
    } else {
      i := TopmostLink(links[..n]);
      assert forall k | 0 <= k < n :: links[..n][k] == links[k];
      if Serves(links[n]) && PriorityOf(links[i]) < PriorityOf(links[n]) { i := n; }
    }
  }

  /** Why no zone is found, and which zone it is whose minimum is not met. */
  predicate ZoneRefused(links: seq<ZoneLink>, order: int, e: Error) {
    match e
    case DeliveryAreaUnsupported => Unserved(links)
    case DeliveryConfigurationInvalid => TopShared(links)
    case MinimumOrderNotMet =>
      exists i | 0 <= i < |links| ::
        TopLink(links, i) && links[i].zone.minOrder.Some? && order < links[i].zone.minOrder.value
    case _ => false
  }

  lemma UnservedIs(links: seq<ZoneLink>)
    ensures OpenZones(links) == [] <==> Unserved(links)
  {
    OpenMembers(links);
    if OpenZones(links) != [] { assert OpenZones(links)[0] in OpenZones(links); }
  }

  lemma TiedZones(links: seq<ZoneLink>)
    requires !Unserved(links) && !FirstStandsOut(Sort(OpenZones(links), ZoneBefore))
    ensures TopShared(links)
  {
    var zones, sorted := OpenZones(links), Sort(OpenZones(links), ZoneBefore);
    SortPermutes(zones, ZoneBefore);
    SortSorts(zones, ZoneBefore);
    var i := TopmostLink(links);
    TopIsHighest(links, i);
    OpenSplit(links, i);
    if TopLink(links, i) {
      assert HighestZone(zones, links[i].zone);
      HighestIsFirst(zones, sorted, links[i].zone);
      assert false;
    }
    var j :| 0 <= j < |links| && j != i && Serves(links[j]) && PriorityOf(links[j]) >= PriorityOf(links[i]);
    assert SharesTop(links, i, j);
  }

  lemma ZoneTells(links: seq<ZoneLink>, order: int)
    requires QuoteZone(links, order).Err?
    ensures ZoneRefused(links, order, QuoteZone(links, order).error)
  {
    var zones, sorted := OpenZones(links), Sort(OpenZones(links), ZoneBefore);
    UnservedIs(links);
    SortPermutes(zones, ZoneBefore);
    SortSorts(zones, ZoneBefore);
    if zones != [] {
      if FirstStandsOut(sorted) {
        FirstIsHighest(sorted);
        var k := MoveHighest(sorted, 0, zones);
        assert HighestZone(zones, sorted[0].zone);
        var i := ZoneOfTopLink(links, sorted[0].zone);
      } else {
        TiedZones(links);
      }
    }
  }

  // Rates.

  /** Two rows can be charged as this, level with each other and below no other that can. */
  predicate Tied(rows: seq<RateRow>, at: int, l: Locality, z: Zone, order: int, weight: int, express: bool, w: Wanted) {
    exists i, j | 0 <= i < |rows| && 0 <= j < |rows| && i != j ::
      && Chargeable(rows[i], at, l, z, order, weight, express, w)
      && Level(rows[i].rate, rows[j].rate) && Chargeable(rows[j], at, l, z, order, weight, express, w)
      && Unbeaten(rows, i, at, l, z, order, weight, express, w)
  }

  predicate Level(x: Rate, y: Rate) { Closeness(x) == Closeness(y) && x.priority == y.priority }

  predicate Unbeaten(rows: seq<RateRow>, i: nat, at: int, l: Locality, z: Zone, order: int, weight: int, express: bool,
    w: Wanted)
    requires i < |rows|
  {
    forall k | 0 <= k < |rows| && Chargeable(rows[k], at, l, z, order, weight, express, w) ::
      !Beaten(rows[i].rate, rows[k].rate)
  }

  /** Every valid rate besides one is that of another row. */
  lemma OtherRows(rows: seq<RateRow>, i: nat, at: int)
    requires i < |rows| && ValidAt(rows[i], at)
    ensures |ValidRates(rows[..i], at)| < |ValidRates(rows, at)|
    ensures var others := Without(ValidRates(rows, at), |ValidRates(rows[..i], at)|);
      && (forall x | x in others :: exists j :: 0 <= j < |rows| && j != i && ValidAt(rows[j], at) && rows[j].rate == x)
      && (forall j | 0 <= j < |rows| && j != i && ValidAt(rows[j], at) :: rows[j].rate in others)
  {
    ValidSplit(rows, i, at);
    ValidMembers(rows[..i], at);
    ValidMembers(rows[i + 1..], at);
    assert forall j | 0 <= j < i :: rows[..i][j] == rows[j];
    assert forall j | i < j < |rows| :: rows[i + 1..][j - i - 1] == rows[j];
  }

  lemma TiedRows(rows: seq<RateRow>, k: nat, at: int, l: Locality, z: Zone, order: int, weight: int, express: bool,
    w: Wanted)
    requires k < |ValidRates(rows, at)| && TiedBest(ValidRates(rows, at), k, Where(l, z, order, weight, express), w)
    ensures Tied(rows, at, l, z, order, weight, express, w)
  {
    var valid, c := ValidRates(rows, at), Where(l, z, order, weight, express);
    var i := ValidOrigin(rows, k, at);
    OtherRows(rows, i, at);
    ValidSplit(rows, i, at);
    ChargeableIs(rows[i], at, l, z, order, weight, express, w);
    forall m | 0 <= m < |rows| && Chargeable(rows[m], at, l, z, order, weight, express, w)
      ensures !Beaten(rows[i].rate, rows[m].rate)
    {
      ChargeableIs(rows[m], at, l, z, order, weight, express, w);
      if m != i { assert rows[m].rate in Without(valid, k); }
    }
    var x :| x in Without(valid, k) && Eligible(x, c, w) && !Below(x, valid[k], c);
    var j :| 0 <= j < |rows| && j != i && ValidAt(rows[j], at) && rows[j].rate == x;
    ChargeableIs(rows[j], at, l, z, order, weight, express, w);
    assert Unbeaten(rows, i, at, l, z, order, weight, express, w);
    assert Level(rows[i].rate, rows[j].rate);
  }

  /** Why no rates are chosen for a delivery. */
  predicate RatesRefused(rows: seq<RateRow>, at: int, l: Locality, z: Zone, order: int, weight: int, express: bool,
    e: Error) {
    match e
    case DeliveryRateUnavailable => !SomeRow(rows, at, l, z, order, weight, express, BaseRate)
    case DeliveryConfigurationInvalid =>
      Tied(rows, at, l, z, order, weight, express, BaseRate) ||
      exists kind | kind in SURCHARGES :: Tied(rows, at, l, z, order, weight, express, Surcharge(kind))
    case ExpressDeliveryUnavailable =>
      express && !SomeRow(rows, at, l, z, order, weight, express, Surcharge(ExpressSurcharge))
    case _ => false
  }

  lemma BaseTells(rows: seq<RateRow>, at: int, l: Locality, z: Zone, order: int, weight: int, express: bool, c: Context)
    requires c == Where(l, z, order, weight, express)
    ensures var base := SelectBaseRate(Filter(ValidRates(rows, at), c), c);
      && (base == Err(RateMissing) ==> !SomeRow(rows, at, l, z, order, weight, express, BaseRate))
      && (base == Err(RateAmbiguous) ==> Tied(rows, at, l, z, order, weight, express, BaseRate))
  {
    var valid := ValidRates(rows, at);
    FilterChangesNothing(valid, c, Base);
    SelectBaseRateMeaning(valid, c);
    SomeIs(rows, at, l, z, order, weight, express, BaseRate);
    if SelectBaseRate(valid, c) == Err(RateAmbiguous) {
      var k: nat :| k < |valid| && TiedBest(valid, k, c, BaseRate);
      TiedRows(rows, k, at, l, z, order, weight, express, BaseRate);
    }
  }

  lemma {:induction false} SurchargesTell(rows: seq<RateRow>, at: int, l: Locality, z: Zone, order: int, weight: int,
    express: bool, c: Context, kinds: seq<RateType>)
    requires c == Where(l, z, order, weight, express)
    requires QuoteSurcharges(Filter(ValidRates(rows, at), c), c, kinds).Err?
    ensures QuoteSurcharges(Filter(ValidRates(rows, at), c), c, kinds) == Err(RateAmbiguous)
    ensures exists kind | kind in kinds :: Tied(rows, at, l, z, order, weight, express, Surcharge(kind))
    decreases |kinds|
  {
    var valid := ValidRates(rows, at);
    FilterChangesNothing(valid, c, kinds[0]);
    SelectionMeaning(valid, c, Surcharge(kinds[0]), false);
    ChooseIsUniqueMaximum(Candidates(valid, c, Surcharge(kinds[0])), false);
    if SelectSurchargeRate(valid, c, kinds[0]).Err? {
      var k: nat :| k < |valid| && TiedBest(valid, k, c, Surcharge(kinds[0]));
      TiedRows(rows, k, at, l, z, order, weight, express, Surcharge(kinds[0]));
    } else {
      SurchargesTell(rows, at, l, z, order, weight, express, c, kinds[1..]);
      var kind :| kind in kinds[1..] && Tied(rows, at, l, z, order, weight, express, Surcharge(kind));
      assert kind in kinds;
    }
  }

  lemma NoExpress(rows: seq<RateRow>, at: int, l: Locality, z: Zone, order: int, weight: int, express: bool, c: Context,
    chosen: seq<Rate>)
    requires c == Where(l, z, order, weight, express)
    requires QuoteSurcharges(Filter(ValidRates(rows, at), c), c, QuoteSurchargeTypes) == Ok(chosen)
    requires forall r | r in chosen :: r.kind != ExpressSurcharge
    ensures !SomeRow(rows, at, l, z, order, weight, express, Surcharge(ExpressSurcharge))
  {
    SurchargesMean(ValidRates(rows, at), c, QuoteSurchargeTypes);
    assert ExpressSurcharge in QuoteSurchargeTypes && !HasKind(chosen, ExpressSurcharge);
    assert !Wants(ValidRates(rows, at), c, ExpressSurcharge);
    SomeIs(rows, at, l, z, order, weight, express, Surcharge(ExpressSurcharge));
  }

  /** What the choice of rates fails with, from its parts. */
  lemma RatesFail(rates: seq<Rate>, c: Context)
    requires QuoteRates(rates, c).Err?
    ensures var e := QuoteRates(rates, c).error;
      var base, surcharges := SelectBaseRate(rates, c), QuoteSurcharges(rates, c, QuoteSurchargeTypes);
      || (base == Err(RateMissing) && e == DeliveryRateUnavailable)
      || (base == Err(RateAmbiguous) && e == DeliveryConfigurationInvalid)
      || (surcharges == Err(RateMissing) && e == DeliveryRateUnavailable)
      || (surcharges == Err(RateAmbiguous) && e == DeliveryConfigurationInvalid)
      || (surcharges.Ok? && c.express && e == ExpressDeliveryUnavailable &&
          forall r | r in surcharges.value :: r.kind != ExpressSurcharge)
  {
  }

  lemma RatesTell(rows: seq<RateRow>, at: int, l: Locality, z: Zone, order: int, weight: int, express: bool, c: Context,
    rates: seq<Rate>)
    requires c == Where(l, z, order, weight, express) && rates == Filter(ValidRates(rows, at), c)
    requires QuoteRates(rates, c).Err?
    ensures RatesRefused(rows, at, l, z, order, weight, express, QuoteRates(rates, c).error)
  {
    RatesFail(rates, c);
    BaseTells(rows, at, l, z, order, weight, express, c);
    var surcharges := QuoteSurcharges(rates, c, QuoteSurchargeTypes);
    if surcharges.Err? {
      SurchargesTell(rows, at, l, z, order, weight, express, c, QuoteSurchargeTypes);
    } else if forall r | r in surcharges.value :: r.kind != ExpressSurcharge {
      NoExpress(rows, at, l, z, order, weight, express, c, surcharges.value);
    }
  }

  // Courier deliveries.

  predicate Exactly(x: int) { -9_007_199_254_740_991 <= x <= 9_007_199_254_740_991 }

  /** The fees cannot be added up exactly, or an order meets a negative one. */
  predicate FeesRefused(chosen: seq<Rate>, ordered: bool, e: Error) {
    match e
    case MoneyOutOfRange => (exists r | r in chosen :: !Exactly(r.fee)) || !Exactly(Sum(chosen, (r: Rate) => r.fee))
    case DeliveryConfigurationInvalid => ordered && exists r | r in chosen :: r.fee < 0
    case _ => false
  }

  ghost predicate ChoiceRefused(rows: seq<RateRow>, at: int, l: Locality, z: Zone, order: int, weight: int,
    express: bool, ordered: bool, e: Error) {
    RatesRefused(rows, at, l, z, order, weight, express, e) ||
    exists chosen :: RightRates(rows, at, l, z, order, weight, express, chosen) && FeesRefused(chosen, ordered, e)
  }

  lemma FeesAre(rates: seq<Rate>)
    ensures forall v :: v in Fees(rates) <==> exists r | r in rates :: r.fee == v
  {
    forall r | r in rates ensures r.fee in Fees(rates) {
      var i :| 0 <= i < |rates| && rates[i] == r;
      assert Fees(rates)[i] == r.fee;
    }
    forall v | v in Fees(rates) ensures exists r | r in rates :: r.fee == v {
      var i :| 0 <= i < |rates| && Fees(rates)[i] == v;
      assert rates[i] in rates;
    }
  }

  lemma ChargeTells(z: Zone, chosen: seq<Rate>, order: int, ordered: bool)
    requires QuoteCharge(z, chosen, order).Err?
    ensures FeesRefused(chosen, ordered, QuoteCharge(z, chosen, order).error)
  {
    FeesSum(chosen);
    FeesAre(chosen);
  }

  lemma ChosenAreRight(rows: seq<RateRow>, at: int, l: Locality, z: Zone, order: int, weight: int, express: bool,
    c: Context, rates: seq<Rate>)
    requires c == Where(l, z, order, weight, express) && rates == Filter(ValidRates(rows, at), c)
    requires QuoteRates(rates, c).Ok?
    ensures RightRates(rows, at, l, z, order, weight, express, QuoteRates(rates, c).value)
  {
    RatesMean(ValidRates(rows, at), c);
    BestAreRight(rows, at, l, z, order, weight, express, QuoteRates(rates, c).value, c);
  }

  lemma QuoteWithinTells(rows: seq<RateRow>, at: int, l: Locality, z: Zone, order: int, weight: int, express: bool,
    c: Context)
    requires c == Where(l, z, order, weight, express) && QuoteWithin(rows, at, c, z).Err?
    ensures ChoiceRefused(rows, at, l, z, order, weight, express, false, QuoteWithin(rows, at, c, z).error)
  {
    var rates := Filter(ValidRates(rows, at), c);
    QueryIsFilter(rows, at, c);
    if QuoteRates(rates, c).Err? {
      RatesTell(rows, at, l, z, order, weight, express, c, rates);
    } else {
      ChosenAreRight(rows, at, l, z, order, weight, express, c, rates);
      ChargeTells(z, QuoteRates(rates, c).value, order, false);
    }
  }

  lemma OrderRatesFail(rates: seq<Rate>, c: Context)
    requires OrderRates(rates, c).Err?
    ensures var quoted, ordered := QuoteRates(rates, c), OrderRates(rates, c);
      if quoted.Err? then ordered.error == quoted.error
      else ordered.error == DeliveryConfigurationInvalid && exists r | r in quoted.value :: r.fee < 0
  {
    SurchargesAgree(rates, c, QuoteSurchargeTypes);
  }

  lemma OrderWithinTells(rows: seq<RateRow>, at: int, l: Locality, z: Zone, order: int, weight: int, express: bool,
    c: Context)
    requires c == Where(l, z, order, weight, express) && OrderWithin(rows, at, c, z).Err?
    ensures ChoiceRefused(rows, at, l, z, order, weight, express, true, OrderWithin(rows, at, c, z).error)
  {
    var rates := Filter(ValidRates(rows, at), c);
    QueryIsFilter(rows, at, c);
    RatesAgree(rates, c);
    if QuoteRates(rates, c).Err? {
      OrderRatesFail(rates, c);
      RatesTell(rows, at, l, z, order, weight, express, c, rates);
    } else {
      var chosen := QuoteRates(rates, c).value;
      ChosenAreRight(rows, at, l, z, order, weight, express, c, rates);
      if OrderRates(rates, c).Err? {
        OrderRatesFail(rates, c);
        assert FeesRefused(chosen, true, DeliveryConfigurationInvalid);
      } else {
        ChargesAgree(z, chosen, order);
        ChargeTells(z, chosen, order, true);
      }
    }
  }

  /** Why a courier does not deliver to this locality. */
  ghost predicate LocalRefused(rows: seq<RateRow>, at: int, l: Locality, order: int, weight: int, express: bool,
    ordered: bool, e: Error) {
    ZoneRefused(l.links, order, e) ||
    exists i | 0 <= i < |l.links| ::
      TopLink(l.links, i) && ChoiceRefused(rows, at, l, l.links[i].zone, order, weight, express, ordered, e)
  }

  ghost predicate CourierRefused(s: Snapshot, at: int, id: int, order: int, weight: int, express: bool, ordered: bool,
    e: Error) {
    if forall l | l in s.localities :: l.id != id || !l.active then e == DeliveryAreaUnsupported
    else
      exists l | l in s.localities ::
        l.id == id && l.active && LocalRefused(s.rates, at, l, order, weight, express, ordered, e)
  }

  lemma TopZone(links: seq<ZoneLink>, order: int) returns (i: nat)
    requires QuoteZone(links, order).Ok?
    ensures TopLink(links, i) && links[i].zone == QuoteZone(links, order).value
  {
    ZoneIsUniqueHighest(links, order);
    i := ZoneOfTopLink(links, QuoteZone(links, order).value);
  }

  lemma QuoteCourierTells(s: Snapshot, id: int, t: Totals, order: int, express: bool)
    requires order == t.subtotal - t.discount && QuoteCourier(s, id, t, express).Err?
    ensures CourierRefused(s, s.courierNow, id, order, t.weight, express, false, QuoteCourier(s, id, t, express).error)
  {
    FoundLocality(s.localities, id);
    if FindLocality(s.localities, id).Some? {
      var l := FindLocality(s.localities, id).value;
      if QuoteZone(l.links, order).Err? {
        ZoneTells(l.links, order);
      } else {
        var i := TopZone(l.links, order);
        var z := QuoteZone(l.links, order).value;
        QuoteWithinTells(s.rates, s.courierNow, l, z, order, t.weight, express, RateContext(l, z, t, express));
      }
    }
  }

  lemma OrderCourierTells(s: Snapshot, id: int, t: Totals, order: int, express: bool)
    requires order == t.subtotal - t.discount && OrderCourier(s, id, t, express).Err?
    ensures CourierRefused(s, s.now, id, order, t.weight, express, true, OrderCourier(s, id, t, express).error)
  {
    FoundLocality(s.localities, id);
    if FindLocality(s.localities, id).Some? {
      var l := FindLocality(s.localities, id).value;
      assert OrderZone(l.links, order) == QuoteZone(l.links, order);
      if QuoteZone(l.links, order).Err? {
        ZoneTells(l.links, order);
      } else {
        var i := TopZone(l.links, order);
        var z := QuoteZone(l.links, order).value;
        OrderWithinTells(s.rates, s.now, l, z, order, t.weight, express, RateContext(l, z, t, express));
      }
    }
  }
}
