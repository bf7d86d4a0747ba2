/** What a delivery charges, on the columns of localities, links, zones, rates and pickups: which
    zone, which rates, which fee and which cash limit, and what each refusal means. */
module DeliveryFacts {
  import opened Wrappers
  import opened Sums
  import opened Rates
  import opened CheckoutPricing
  import opened CourierAgreement
  import opened CheckoutProof
  import opened CourierMeaning

  // Zones.

  predicate Serves(link: ZoneLink) {
    link.active && link.zone.active && link.zone.supported && !link.zone.suspended
  }

  function PriorityOf(link: ZoneLink): int {
    if link.priorityOverride.Some? then link.priorityOverride.value else link.zone.priority
  }

  /** Link i serves the locality, above every other link that does. */
  predicate TopLink(links: seq<ZoneLink>, i: nat) {
    && i < |links| && Serves(links[i])
    && forall j | 0 <= j < |links| && j != i && Serves(links[j]) :: PriorityOf(links[j]) < PriorityOf(links[i])
  }

  function OpenAt(links: seq<ZoneLink>, i: nat): nat
    requires i <= |links|
  {
    |OpenZones(links[..i])|
  }

  lemma {:induction false} OpenConcat(a: seq<ZoneLink>, b: seq<ZoneLink>)
    ensures OpenZones(a + b) == OpenZones(a) + OpenZones(b)
  {
    if a == [] {
      assert a + b == b;
    } else {
      OpenConcat(a[1..], b);
      assert (a + b)[1..] == a[1..] + b && (a + b)[0] == a[0];
    }
  }

  lemma {:induction false} OpenMembers(links: seq<ZoneLink>)
    ensures forall j | 0 <= j < |links| && Serves(links[j]) ::
      PrioritizedZone(links[j].zone, PriorityOf(links[j])) in OpenZones(links)
    ensures forall y | y in OpenZones(links) ::
      exists j :: 0 <= j < |links| && Serves(links[j]) && y == PrioritizedZone(links[j].zone, PriorityOf(links[j]))
  {
    if links != [] {
      OpenMembers(links[1..]);
      assert forall j | 0 < j < |links| :: links[j] == links[1..][j - 1];
    }
  }

  lemma OpenSplit(links: seq<ZoneLink>, i: nat)
    requires i < |links| && Serves(links[i])
    ensures var k := OpenAt(links, i); var zones := OpenZones(links);
      && k < |zones| && zones[k] == PrioritizedZone(links[i].zone, PriorityOf(links[i]))
      && Without(zones, k) == OpenZones(links[..i]) + OpenZones(links[i + 1..])
  {
    assert links == links[..i] + ([links[i]] + links[i + 1..]);
    OpenConcat(links[..i], [links[i]] + links[i + 1..]);
    OpenConcat([links[i]], links[i + 1..]);
    assert [links[i]][1..] == [];
    assert OpenZones([links[i]]) == [PrioritizedZone(links[i].zone, PriorityOf(links[i]))];
  }

  lemma {:induction false} OpenOrigin(links: seq<ZoneLink>, k: nat) returns (i: nat)
    requires k < |OpenZones(links)|
    ensures i < |links| && Serves(links[i]) && OpenAt(links, i) == k
  {
    var n := |links| - 1;
    assert links == links[..n] + [links[n]] && [links[n]][1..] == [];
    OpenConcat(links[..n], [links[n]]);
    if k < |OpenZones(links[..n])| {
      i := OpenOrigin(links[..n], k);
      assert links[..n][..i] == links[..i];
    } else {
      i := n;
    }
  }

  lemma TopIsHighest(links: seq<ZoneLink>, i: nat)
    requires i < |links| && Serves(links[i])
    ensures OpenAt(links, i) < |OpenZones(links)|
    ensures TopLink(links, i) <==> LowerElsewhere(OpenZones(links), OpenAt(links, i))
  {
    OpenSplit(links, i);
    OpenMembers(links[..i]);
    OpenMembers(links[i + 1..]);
    var k := OpenAt(links, i);
    if LowerElsewhere(OpenZones(links), k) {
      forall j | 0 <= j < |links| && j != i && Serves(links[j]) ensures PriorityOf(links[j]) < PriorityOf(links[i]) {
        var y := PrioritizedZone(links[j].zone, PriorityOf(links[j]));
        assert if j < i then links[j] == links[..i][j] else links[j] == links[i + 1..][j - i - 1];
        assert y in Without(OpenZones(links), k);
      }
    }
  }

  /** The highest zone is that of the one link that serves above all others. */
  lemma ZoneOfTopLink(links: seq<ZoneLink>, z: Zone) returns (i: nat)
    requires HighestZone(OpenZones(links), z)
    ensures TopLink(links, i) && links[i].zone == z
  {
    var zones := OpenZones(links);
    var k: nat :| k < |zones| && zones[k].zone == z && LowerElsewhere(zones, k);
    i := OpenOrigin(links, k);
    OpenSplit(links, i);
    TopIsHighest(links, i);
  }

  // Rates.

  /** The address fields of a rate: a locality alone decides, then a delegation, a governorate, a zone;
      without any it applies everywhere. */
  predicate Applies(r: Rate, l: Locality, z: Zone) {
    if r.locality.Some? then r.locality.value == l.id
    else if r.delegation.Some? then r.delegation.value == l.delegation
    else if r.governorate.Some? then r.governorate.value == l.governorate
    else r.zone.Some? ==> r.zone.value == z.id
  }

  /** How close a rate that applies is to the address. */
  function Closeness(r: Rate): int {
    if r.locality.Some? then 5
    else if r.delegation.Some? then 4
    else if r.governorate.Some? then 3
    else if r.zone.Some? then 2
    else 1
  }

  /** The order amount and the weight are within the bounds of the rate. */
  predicate Admits(r: Rate, order: int, weight: int) {
    && (r.minOrder.Some? ==> r.minOrder.value <= order)
    && (r.maxOrder.Some? ==> order <= r.maxOrder.value)
    && (r.maxCod.Some? ==> order <= r.maxCod.value)
    && (r.minWeight.Some? ==> r.minWeight.value <= weight)
    && (r.maxWeight.Some? ==> weight <= r.maxWeight.value)
  }

  predicate InForce(row: RateRow, at: int) {
    && row.active && (row.validFrom.Some? ==> row.validFrom.value <= at)
    && (row.validUntil.Some? ==> at < row.validUntil.value)
  }

  /** What a kind of rate is for: a base rate has the kind of its own closeness; a surcharge has its
      kind, and the express one is for express deliveries only. */
  predicate Suits(r: Rate, w: Wanted, express: bool) {
    match w
    case BaseRate => r.kind ==
      (if r.locality.Some? then RateType.Locality
       else if r.delegation.Some? then Delegation
       else if r.governorate.Some? then Governorate
       else Base)
    case Surcharge(kind) => r.kind == kind && (kind == ExpressSurcharge ==> express)
  }

  /** Everything a row must meet to be charged for this delivery. */
  predicate Chargeable(row: RateRow, at: int, l: Locality, z: Zone, order: int, weight: int, express: bool, w: Wanted) {
    InForce(row, at) && Applies(row.rate, l, z) && Admits(row.rate, order, weight) && Suits(row.rate, w, express)
  }

  predicate Beaten(x: Rate, r: Rate) {
    Closeness(x) < Closeness(r) || (Closeness(x) == Closeness(r) && x.priority < r.priority)
  }

  /** Row i can be charged and beats every other row that can. */
  predicate Wins(rows: seq<RateRow>, i: nat, at: int, l: Locality, z: Zone, order: int, weight: int, express: bool,
    w: Wanted) {
    && i < |rows| && Chargeable(rows[i], at, l, z, order, weight, express, w)
    && forall j | 0 <= j < |rows| && j != i && Chargeable(rows[j], at, l, z, order, weight, express, w) ::
         Beaten(rows[j].rate, rows[i].rate)
  }

  function Where(l: Locality, z: Zone, order: int, weight: int, express: bool): Context {
    Context(z.id, l.governorate, l.delegation, l.id, order, weight, express)
  }

  lemma ChargeableIs(row: RateRow, at: int, l: Locality, z: Zone, order: int, weight: int, express: bool, w: Wanted)
    ensures Chargeable(row, at, l, z, order, weight, express, w) <==>
      ValidAt(row, at) && Eligible(row.rate, Where(l, z, order, weight, express), w)
    ensures Chargeable(row, at, l, z, order, weight, express, w) ==>
      GeographicRank(row.rate, Where(l, z, order, weight, express)) == Closeness(row.rate)
  {
  }

  lemma {:induction false} ValidConcat(a: seq<RateRow>, b: seq<RateRow>, at: int)
    ensures ValidRates(a + b, at) == ValidRates(a, at) + ValidRates(b, at)
  {
    if b == [] {
      assert a + b == a;
    } else {
      ValidConcat(a, b[..|b| - 1], at);
      assert (a + b)[..|a + b| - 1] == a + b[..|b| - 1];
    }
  }

  lemma {:induction false} ValidMembers(rows: seq<RateRow>, at: int)
    ensures forall j | 0 <= j < |rows| && ValidAt(rows[j], at) :: rows[j].rate in ValidRates(rows, at)
    ensures forall x | x in ValidRates(rows, at) ::
      exists j :: 0 <= j < |rows| && ValidAt(rows[j], at) && rows[j].rate == x
  {
    if rows != [] {
      var n := |rows| - 1;
      ValidMembers(rows[..n], at);
      assert forall j | 0 <= j < n :: rows[j] == rows[..n][j];
    }
  }

  lemma {:induction false} ValidOrigin(rows: seq<RateRow>, k: nat, at: int) returns (i: nat)
    requires k < |ValidRates(rows, at)|
    ensures i < |rows| && ValidAt(rows[i], at) && |ValidRates(rows[..i], at)| == k
  {
    var n := |rows| - 1;
    if k < |ValidRates(rows[..n], at)| {
      i := ValidOrigin(rows[..n], k, at);
      assert rows[..n][..i] == rows[..i];
    } else {
      i := n;
    }
  }

  lemma ValidSplit(rows: seq<RateRow>, i: nat, at: int)
    requires i < |rows| && ValidAt(rows[i], at)
    ensures var k := |ValidRates(rows[..i], at)|; var valid := ValidRates(rows, at);
      && k < |valid| && valid[k] == rows[i].rate
      && Without(valid, k) == ValidRates(rows[..i], at) + ValidRates(rows[i + 1..], at)
  {
    assert rows == rows[..i] + ([rows[i]] + rows[i + 1..]);
    ValidConcat(rows[..i], [rows[i]] + rows[i + 1..], at);
    ValidConcat([rows[i]], rows[i + 1..], at);
    assert [rows[i]][..0] == [] && ValidRates([rows[i]], at) == [rows[i].rate];
  }

  /** The best of the valid rates is the rate of a row that wins. */
  lemma BestWins(rows: seq<RateRow>, r: Rate, at: int, l: Locality, z: Zone, order: int, weight: int, express: bool,
    w: Wanted) returns (i: nat)
    requires IsBest(ValidRates(rows, at), r, Where(l, z, order, weight, express), w)
    ensures Wins(rows, i, at, l, z, order, weight, express, w) && rows[i].rate == r
  {
    var valid, c := ValidRates(rows, at), Where(l, z, order, weight, express);
    var k: nat :| k < |valid| && valid[k] == r && StrictlyBest(valid, k, c, w);
    i := ValidOrigin(rows, k, at);
    ValidSplit(rows, i, at);
    ChargeableIs(rows[i], at, l, z, order, weight, express, w);
    ValidMembers(rows[..i], at);
    ValidMembers(rows[i + 1..], at);
    forall j | 0 <= j < |rows| && j != i && Chargeable(rows[j], at, l, z, order, weight, express, w)
      ensures Beaten(rows[j].rate, rows[i].rate)
    {
      ChargeableIs(rows[j], at, l, z, order, weight, express, w);
      assert if j < i then rows[j] == rows[..i][j] else rows[j] == rows[i + 1..][j - i - 1];
      assert rows[j].rate in Without(valid, k);
    }
  }

  /** Some row can be charged as this. */
  predicate SomeRow(rows: seq<RateRow>, at: int, l: Locality, z: Zone, order: int, weight: int, express: bool,
    w: Wanted) {
    exists j | 0 <= j < |rows| :: Chargeable(rows[j], at, l, z, order, weight, express, w)
  }

  lemma SomeIs(rows: seq<RateRow>, at: int, l: Locality, z: Zone, order: int, weight: int, express: bool, w: Wanted)
    ensures SomeRow(rows, at, l, z, order, weight, express, w) <==>
      exists x :: x in ValidRates(rows, at) && Eligible(x, Where(l, z, order, weight, express), w)
  {
    var c := Where(l, z, order, weight, express);
    ValidMembers(rows, at);
    forall j | 0 <= j < |rows|
      ensures Chargeable(rows[j], at, l, z, order, weight, express, w) <==>
        ValidAt(rows[j], at) && Eligible(rows[j].rate, c, w)
    {
      ChargeableIs(rows[j], at, l, z, order, weight, express, w);
    }
    if x :| x in ValidRates(rows, at) && Eligible(x, c, w) {
      var j :| 0 <= j < |rows| && ValidAt(rows[j], at) && rows[j].rate == x;
      assert Chargeable(rows[j], at, l, z, order, weight, express, w);
    }
  }

  // The charge.

  const SURCHARGES := [RemoteSurcharge, WeightSurcharge, OversizeSurcharge, ExpressSurcharge]

  /** These rates: a winning base rate, then of each kind of surcharge the winning rate, if any row
      can be charged as that, with an express one for an express delivery. */
  predicate RightRates(rows: seq<RateRow>, at: int, l: Locality, z: Zone, order: int, weight: int, express: bool,
    rates: seq<Rate>) {
    && rates != []
    && (exists i: nat | i < |rows| ::
          rows[i].rate == rates[0] && Wins(rows, i, at, l, z, order, weight, express, BaseRate))
    && (forall r | r in rates[1..] :: r.kind in SURCHARGES &&
          exists i: nat | i < |rows| ::
            rows[i].rate == r && Wins(rows, i, at, l, z, order, weight, express, Surcharge(r.kind)))
    && (forall i, j | 1 <= i < j < |rates| :: rates[i].kind != rates[j].kind)
    && (forall kind | kind in SURCHARGES && SomeRow(rows, at, l, z, order, weight, express, Surcharge(kind)) ::
          exists r | r in rates[1..] :: r.kind == kind)
    && (express ==> exists r | r in rates[1..] :: r.kind == ExpressSurcharge)
  }

  lemma BestAreRight(rows: seq<RateRow>, at: int, l: Locality, z: Zone, order: int, weight: int, express: bool,
    rates: seq<Rate>, c: Context)
    requires c == Where(l, z, order, weight, express) && BestRates(ValidRates(rows, at), c, rates)
    ensures RightRates(rows, at, l, z, order, weight, express, rates)
  {
    var i := BestWins(rows, rates[0], at, l, z, order, weight, express, BaseRate);
    forall r | r in rates[1..]
      ensures r.kind in SURCHARGES && exists i: nat | i < |rows| ::
        rows[i].rate == r && Wins(rows, i, at, l, z, order, weight, express, Surcharge(r.kind))
    {
      var i := BestWins(rows, r, at, l, z, order, weight, express, Surcharge(r.kind));
    }
    forall i, j | 1 <= i < j < |rates| ensures rates[i].kind != rates[j].kind {
      assert KindOf(rates[1..][i - 1]) != KindOf(rates[1..][j - 1]);
    }
    forall kind | kind in SURCHARGES && SomeRow(rows, at, l, z, order, weight, express, Surcharge(kind))
      ensures exists r | r in rates[1..] :: r.kind == kind
    {
      SomeIs(rows, at, l, z, order, weight, express, Surcharge(kind));
      assert Wants(ValidRates(rows, at), c, kind) && HasKind(rates[1..], kind);
    }
  }

  /** The fee and the cash limit of these rates in this zone. */
  predicate Adds(z: Zone, order: int, f: Fulfillment) {
    && f.deliveryTotal ==
      (if z.freeThreshold.Some? && z.freeThreshold.value <= order then 0 else Sum(f.rates, (r: Rate) => r.fee))
    && (f.maxCod.Some? ==> f.maxCod == z.maxCod || exists r | r in f.rates :: r.maxCod == f.maxCod)
    && (z.maxCod.Some? ==> f.maxCod.Some? && f.maxCod.value <= z.maxCod.value)
    && forall r | r in f.rates && r.maxCod.Some? :: f.maxCod.Some? && f.maxCod.value <= r.maxCod.value
  }

  /** What a delivery to a locality costs at a time: the zone of its top link, the right rates there,
      their fees or nothing from the free threshold on, and the lowest of the limits that are set. */
  predicate Charges(s: Snapshot, at: int, l: Locality, i: nat, order: int, weight: int, express: bool, f: Fulfillment) {
    && l in s.localities && l.active
    && TopLink(l.links, i)
    && var z := l.links[i].zone;
      && (z.minOrder.Some? ==> z.minOrder.value <= order)
      && RightRates(s.rates, at, l, z, order, weight, express, f.rates)
      && Adds(z, order, f)
  }

  lemma {:induction false} FeesSum(rates: seq<Rate>)
    ensures Sum(Fees(rates), v => v) == Sum(rates, (r: Rate) => r.fee)
  {
    if rates != [] {
      var n := |rates| - 1;
      FeesSum(rates[..n]);
      assert Fees(rates)[..n] == Fees(rates[..n]);
    }
  }

  lemma {:induction false} FoundLocality(localities: seq<Locality>, id: int)
    ensures var l := FindLocality(localities, id);
      && (l.Some? ==> l.value in localities && l.value.id == id && l.value.active)
      && (l.None? ==> forall x | x in localities :: x.id != id || !x.active)
  {
    if localities != [] { FoundLocality(localities[1..], id); }
  }

  lemma ChargedAdds(z: Zone, order: int, f: Fulfillment)
    requires ChargedFor(z, order, f)
    ensures Adds(z, order, f)
  {
    FeesSum(f.rates);
  }

  lemma LinkCharges(s: Snapshot, at: int, l: Locality, z: Zone, order: int, weight: int, express: bool, f: Fulfillment)
    returns (i: nat)
    requires l in s.localities && l.active && HighestZone(OpenZones(l.links), z)
    requires !UnderMinimum(z.minOrder, order) && Adds(z, order, f)
    requires RightRates(s.rates, at, l, z, order, weight, express, f.rates)
    ensures Charges(s, at, l, i, order, weight, express, f)
  {
    i := ZoneOfTopLink(l.links, z);
  }

  lemma TermsRates(s: Snapshot, at: int, l: Locality, t: Totals, order: int, express: bool, z: Zone, f: Fulfillment)
    requires order == t.subtotal - t.discount
    requires BestRates(ValidRates(s.rates, at), RateContext(l, z, t, express), f.rates)
    ensures RightRates(s.rates, at, l, z, order, t.weight, express, f.rates)
  {
    BestAreRight(s.rates, at, l, z, order, t.weight, express, f.rates, RateContext(l, z, t, express));
  }

  lemma TermsRight(s: Snapshot, at: int, localityId: int, t: Totals, order: int, express: bool, z: Zone, f: Fulfillment)
    returns (l: Locality)
    requires order == t.subtotal - t.discount && Terms(s, at, localityId, t, express, z, f)
    ensures l in s.localities && l.id == localityId && l.active && HighestZone(OpenZones(l.links), z)
    ensures !UnderMinimum(z.minOrder, order) && Adds(z, order, f)
    ensures RightRates(s.rates, at, l, z, order, t.weight, express, f.rates)
  {
    FoundLocality(s.localities, localityId);
    l := FindLocality(s.localities, localityId).value;
    TermsRates(s, at, l, t, order, express, z, f);
    ChargedAdds(z, order, f);
  }

  lemma TermsCharge(s: Snapshot, at: int, localityId: int, t: Totals, order: int, express: bool, z: Zone,
    f: Fulfillment) returns (l: Locality, i: nat)
    requires order == t.subtotal - t.discount && Terms(s, at, localityId, t, express, z, f)
    ensures l.id == localityId && Charges(s, at, l, i, order, t.weight, express, f)
  {
    l := TermsRight(s, at, localityId, t, order, express, z, f);
    i := LinkCharges(s, at, l, z, order, t.weight, express, f);
  }

  /** A quoted delivery, at the time its rates are read. */
  lemma QuoteCharges(s: Snapshot, localityId: int, t: Totals, order: int, express: bool) returns (l: Locality, i: nat)
    requires order == t.subtotal - t.discount && QuoteCourier(s, localityId, t, express).Ok?
    ensures l.id == localityId
    ensures Charges(s, s.courierNow, l, i, order, t.weight, express, QuoteCourier(s, localityId, t, express).value)
  {
    var z := QuoteCourierMeaning(s, localityId, t, express);
    var f := QuoteCourier(s, localityId, t, express).value;
    l, i := TermsCharge(s, s.courierNow, localityId, t, order, express, z, f);
  }

  /** An ordered delivery, at the time of the order, and without a negative fee. */
  lemma OrderCharges(s: Snapshot, localityId: int, t: Totals, order: int, express: bool) returns (l: Locality, i: nat)
    requires order == t.subtotal - t.discount && OrderCourier(s, localityId, t, express).Ok?
    ensures l.id == localityId
    ensures Charges(s, s.now, l, i, order, t.weight, express, OrderCourier(s, localityId, t, express).value)
    ensures forall r | r in OrderCourier(s, localityId, t, express).value.rates :: r.fee >= 0
  {
    var z := OrderCourierMeaning(s, localityId, t, express);
    var f := OrderCourier(s, localityId, t, express).value;
    l, i := TermsCharge(s, s.now, localityId, t, order, express, z, f);
  }

  // Pickups.

  lemma {:induction false} FoundPickup(pickups: seq<Pickup>, id: int)
    ensures var p := FindPickup(pickups, id);
      && (p.Some? ==> p.value in pickups && p.value.id == id && p.value.active)
      && (p.None? ==> forall x | x in pickups :: x.id != id || !x.active)
  {
    if pickups != [] { FoundPickup(pickups[1..], id); }
  }

  /** A pickup is free, at an active place that accepts the order amount, up to that place's limit. */
  lemma PickupCharges(s: Snapshot, id: int, order: int)
    ensures match Collect(s, id, order)
      case Ok(f) =>
        && f.deliveryTotal == 0 && f.rates == []
        && exists p | p in s.pickups :: p.id == id && p.active && f.maxCod == p.maxCod &&
             (p.minOrder.Some? ==> p.minOrder.value <= order)
      case Err(PickupLocationUnavailable) => forall p | p in s.pickups :: p.id != id || !p.active
      case Err(MinimumOrderNotMet) =>
        exists p | p in s.pickups :: p.id == id && p.active && p.minOrder.Some? && order < p.minOrder.value
      case Err(_) => false
  {
    FoundPickup(s.pickups, id);
  }
}
