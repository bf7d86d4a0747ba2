/** The two copies of the courier delivery. The quote reads its clock a second time for the rates, so
    the copies agree exactly when the rates chosen at the two readings are the same. */
module CourierAgreement {
  import opened Wrappers
  import opened Sums
  import opened Sorting
  import opened Money
  import opened Rates
  import opened CheckoutPricing

  // The two copies, given the same rates.

  predicate NoNegativeFee(rates: seq<Rate>) { forall r | r in rates :: r.fee >= 0 }

  lemma {:induction false} SurchargesAgree(rates: seq<Rate>, c: Context, kinds: seq<RateType>)
    ensures QuoteSurcharges(rates, c, kinds) == OrderSurcharges(rates, c, kinds)
    decreases |kinds|
  {
    if kinds != [] { SurchargesAgree(rates, c, kinds[1..]); }
  }

  lemma RatesAgree(rates: seq<Rate>, c: Context)
    ensures var quoted := QuoteRates(rates, c); var ordered := OrderRates(rates, c);
      && (ordered.Ok? <==> quoted.Ok? && NoNegativeFee(quoted.value))
      && (ordered.Ok? ==> ordered == quoted)
  {
    SurchargesAgree(rates, c, QuoteSurchargeTypes);
  }

  lemma {:induction false} PresentConcat(a: seq<Option<int>>, b: seq<Option<int>>)
    ensures Present(a + b) == Present(a) + Present(b)
  {
    if b == [] {
      assert a + b == a;
    } else {
      PresentConcat(a, b[..|b| - 1]);
      assert (a + b)[..|a + b| - 1] == a + b[..|b| - 1];
    }
  }

  lemma ChargesAgree(z: Zone, rates: seq<Rate>, order: int)
    ensures QuoteCharge(z, rates, order) == OrderCharge(z, rates, order)
  {
    PresentConcat([z.maxCod], Limits(rates));
  }

  // Choices at two times.

  /** Every rate valid at a time, whatever its address. */
  function ValidRates(rows: seq<RateRow>, now: int): seq<Rate> {
    if rows == [] then []
    else ValidRates(rows[..|rows| - 1], now) + if ValidAt(rows[|rows| - 1], now) then [rows[|rows| - 1].rate] else []
  }

  lemma {:induction false} QueryIsFilter(rows: seq<RateRow>, now: int, c: Context)
    ensures QueryRates(rows, now, c) == Filter(ValidRates(rows, now), c)
  {
    if rows != [] {
      var n := |rows| - 1;
      QueryIsFilter(rows[..n], now, c);
      if ValidAt(rows[n], now) {
        assert (ValidRates(rows[..n], now) + [rows[n].rate])[..|ValidRates(rows[..n], now)|] ==
          ValidRates(rows[..n], now);
      } else {
        assert ValidRates(rows[..n], now) + [] == ValidRates(rows[..n], now);
      }
    }
  }

  /** Two lists of rates give the same base rate and the same surcharge of every kind. */
  predicate SameChoices(a: seq<Rate>, b: seq<Rate>, c: Context, kinds: seq<RateType>) {
    && SelectBaseRate(a, c) == SelectBaseRate(b, c)
    && SameSurcharges(a, b, c, kinds)
  }

  predicate SameSurcharges(a: seq<Rate>, b: seq<Rate>, c: Context, kinds: seq<RateType>) {
    forall kind | kind in kinds :: SelectSurchargeRate(a, c, kind) == SelectSurchargeRate(b, c, kind)
  }

  lemma FilterKeepsChoices(a: seq<Rate>, b: seq<Rate>, c: Context, kinds: seq<RateType>)
    ensures SameChoices(Filter(a, c), Filter(b, c), c, kinds) == SameChoices(a, b, c, kinds)
  {
    FilterChangesNothing(a, c, Base);
    FilterChangesNothing(b, c, Base);
    forall kind ensures SelectSurchargeRate(Filter(a, c), c, kind) == SelectSurchargeRate(a, c, kind)
      && SelectSurchargeRate(Filter(b, c), c, kind) == SelectSurchargeRate(b, c, kind)
    {
      FilterChangesNothing(a, c, kind);
      FilterChangesNothing(b, c, kind);
    }
  }

  lemma {:induction false} SameGiveSame(a: seq<Rate>, b: seq<Rate>, c: Context, kinds: seq<RateType>)
    requires SameSurcharges(a, b, c, kinds)
    ensures QuoteSurcharges(a, c, kinds) == QuoteSurcharges(b, c, kinds)
    decreases |kinds|
  {
    if kinds != [] {
      assert kinds[0] in kinds && forall k | k in kinds[1..] :: k in kinds;
      SameGiveSame(a, b, c, kinds[1..]);
    }
  }

  function Same(kind: RateType): RateType { kind }

  lemma SurchargeKind(rates: seq<Rate>, c: Context, kind: RateType)
    ensures var choice := SelectSurchargeRate(rates, c, kind);
      choice.Ok? && choice.value.Some? ==> choice.value.value.kind == kind
  {
    var choice := SelectSurchargeRate(rates, c, kind);
    if choice.Ok? && choice.value.Some? {
      SelectionMeaning(rates, c, Surcharge(kind), false);
      var i: nat :| i < |rates| && rates[i] == choice.value.value && StrictlyBest(rates, i, c, Surcharge(kind));
    }
  }

  lemma {:induction false} SurchargeKinds(rates: seq<Rate>, c: Context, kinds: seq<RateType>)
    requires QuoteSurcharges(rates, c, kinds).Ok?
    ensures forall r | r in QuoteSurcharges(rates, c, kinds).value :: r.kind in kinds
    decreases |kinds|
  {
    if kinds != [] {
      SurchargeKind(rates, c, kinds[0]);
      SurchargeKinds(rates, c, kinds[1..]);
    }
  }

  lemma TailDistinct(kinds: seq<RateType>)
    requires DistinctBy(kinds, Same) && kinds != []
    ensures DistinctBy(kinds[1..], Same) && kinds[0] !in kinds[1..]
  {
    forall i, j | 0 <= i < j < |kinds[1..]| ensures Same(kinds[1..][i]) != Same(kinds[1..][j]) {
      assert Same(kinds[i + 1]) != Same(kinds[j + 1]);
    }
    forall j | 0 <= j < |kinds[1..]| ensures kinds[1..][j] != kinds[0] {
      assert Same(kinds[0]) != Same(kinds[j + 1]);
    }
  }

  /** The list of surcharges tells which one was chosen of each kind. */
  lemma {:induction false} SameListSameChoices(a: seq<Rate>, b: seq<Rate>, c: Context, kinds: seq<RateType>)
    requires DistinctBy(kinds, Same)
    requires QuoteSurcharges(a, c, kinds).Ok? && QuoteSurcharges(a, c, kinds) == QuoteSurcharges(b, c, kinds)
    ensures SameSurcharges(a, b, c, kinds)
    decreases |kinds|
  {
    if kinds != [] {
      var kind := kinds[0];
      TailDistinct(kinds);
      SurchargeKind(a, c, kind);
      SurchargeKind(b, c, kind);
      SurchargeKinds(a, c, kinds[1..]);
      SurchargeKinds(b, c, kinds[1..]);
      HeadsMatch(SelectSurchargeRate(a, c, kind).value, SelectSurchargeRate(b, c, kind).value, kind,
        QuoteSurcharges(a, c, kinds[1..]).value, QuoteSurcharges(b, c, kinds[1..]).value);
      SameListSameChoices(a, b, c, kinds[1..]);
    }
  }

  function Listed(r: Option<Rate>): seq<Rate> { if r.Some? then [r.value] else [] }

  lemma HeadsMatch(x: Option<Rate>, y: Option<Rate>, kind: RateType, a: seq<Rate>, b: seq<Rate>)
    requires Listed(x) + a == Listed(y) + b
    requires (x.Some? ==> x.value.kind == kind) && (y.Some? ==> y.value.kind == kind)
    requires (forall r | r in a :: r.kind != kind) && forall r | r in b :: r.kind != kind
    ensures x == y && a == b
  {
    var all := Listed(x) + a;
    if x.Some? { assert all[0] == x.value; }
    if y.Some? { assert all[0] == y.value; }
    assert a == all[|Listed(x)|..] && b == all[|Listed(y)|..];
  }

  lemma RatesParts(rates: seq<Rate>, c: Context)
    requires QuoteRates(rates, c).Ok?
    ensures var chosen := QuoteRates(rates, c).value;
      && chosen != [] && SelectBaseRate(rates, c) == Ok(chosen[0])
      && QuoteSurcharges(rates, c, QuoteSurchargeTypes) == Ok(chosen[1..])
  {
    var surcharges := QuoteSurcharges(rates, c, QuoteSurchargeTypes).value;
    assert ([SelectBaseRate(rates, c).value] + surcharges)[1..] == surcharges;
  }

  lemma SameChoicesSameRates(a: seq<Rate>, b: seq<Rate>, c: Context)
    requires SameChoices(a, b, c, QuoteSurchargeTypes)
    ensures QuoteRates(a, c) == QuoteRates(b, c)
  {
    SameGiveSame(a, b, c, QuoteSurchargeTypes);
  }

  lemma SameRatesSameChoices(a: seq<Rate>, b: seq<Rate>, c: Context)
    requires QuoteRates(a, c).Ok? && QuoteRates(a, c) == QuoteRates(b, c)
    ensures SameChoices(a, b, c, QuoteSurchargeTypes)
  {
    RatesParts(a, c);
    RatesParts(b, c);
    SameListSameChoices(a, b, c, QuoteSurchargeTypes);
  }

  // The agreement.

  /** The order delivers exactly when the quote does and no chosen fee is negative, on the same terms. */
  predicate SameTerms(quoted: Result<Fulfillment, Error>, ordered: Result<Fulfillment, Error>) {
    && (ordered.Ok? <==> quoted.Ok? && NoNegativeFee(quoted.value.rates))
    && (ordered.Ok? ==> ordered == quoted)
  }

  /** One of the two delivers, without a negative fee. */
  predicate Delivers(quoted: Result<Fulfillment, Error>, ordered: Result<Fulfillment, Error>) {
    ordered.Ok? || (quoted.Ok? && NoNegativeFee(quoted.value.rates))
  }

  /** The base rate and each surcharge chosen among the rates valid at one time are those chosen at
      the other. */
  predicate SteadyAt(rows: seq<RateRow>, now: int, later: int, c: Context) {
    SameChoices(ValidRates(rows, now), ValidRates(rows, later), c, OrderSurchargeTypes)
  }

  lemma SteadyQueries(rows: seq<RateRow>, now: int, later: int, c: Context)
    ensures SteadyAt(rows, now, later, c) ==
      SameChoices(QueryRates(rows, now, c), QueryRates(rows, later, c), c, QuoteSurchargeTypes)
  {
    QueryIsFilter(rows, now, c);
    QueryIsFilter(rows, later, c);
    FilterKeepsChoices(ValidRates(rows, now), ValidRates(rows, later), c, QuoteSurchargeTypes);
  }

  lemma QuoteWithinIs(rows: seq<RateRow>, at: int, c: Context, zone: Zone)
    ensures var rates := QuoteRates(QueryRates(rows, at, c), c);
      QuoteWithin(rows, at, c, zone) == if rates.Err? then Err(rates.error) else QuoteCharge(zone, rates.value, c.order)
    ensures QuoteWithin(rows, at, c, zone).Ok? ==>
      QuoteRates(QueryRates(rows, at, c), c) == Ok(QuoteWithin(rows, at, c, zone).value.rates)
  {
  }

  /** On one list of rates the copies agree. */
  lemma OrderWithinIs(rows: seq<RateRow>, at: int, c: Context, zone: Zone)
    ensures SameTerms(QuoteWithin(rows, at, c, zone), OrderWithin(rows, at, c, zone))
  {
    var rates := QueryRates(rows, at, c);
    RatesAgree(rates, c);
    if QuoteRates(rates, c).Ok? { ChargesAgree(zone, QuoteRates(rates, c).value, c.order); }
  }

  lemma WithinAgrees(rows: seq<RateRow>, now: int, later: int, c: Context, zone: Zone)
    ensures var quoted := QuoteWithin(rows, later, c, zone); var ordered := OrderWithin(rows, now, c, zone);
      && (SteadyAt(rows, now, later, c) ==> SameTerms(quoted, ordered))
      && (Delivers(quoted, ordered) ==> (quoted == ordered <==> SteadyAt(rows, now, later, c)))
  {
    SteadyQueries(rows, now, later, c);
    var before, after := QueryRates(rows, now, c), QueryRates(rows, later, c);
    if SameChoices(before, after, c, QuoteSurchargeTypes) { SameChoicesSameRates(before, after, c); }
    if QuoteRates(before, c).Ok? && QuoteRates(before, c) == QuoteRates(after, c) {
      SameRatesSameChoices(before, after, c);
    }
    OrderWithinIs(rows, now, c, zone);
    QuoteWithinIs(rows, now, c, zone);
    QuoteWithinIs(rows, later, c, zone);
  }

  lemma QuoteCourierIs(s: Snapshot, localityId: int, t: Totals, express: bool, l: Locality, zone: Zone)
    requires FindLocality(s.localities, localityId) == Some(l) &&
      QuoteZone(l.links, t.subtotal - t.discount) == Ok(zone)
    ensures QuoteCourier(s, localityId, t, express) ==
      QuoteWithin(s.rates, s.courierNow, RateContext(l, zone, t, express), zone)
  {
  }

  lemma OrderCourierIs(s: Snapshot, localityId: int, t: Totals, express: bool, l: Locality, zone: Zone)
    requires FindLocality(s.localities, localityId) == Some(l) &&
      OrderZone(l.links, t.subtotal - t.discount) == Ok(zone)
    ensures OrderCourier(s, localityId, t, express) ==
      OrderWithin(s.rates, s.now, RateContext(l, zone, t, express), zone)
  {
  }

  /** For a delivery to this address the two readings of the clock choose the same rates. */
  predicate SteadyChoices(s: Snapshot, localityId: int, t: Totals, express: bool) {
    var l := FindLocality(s.localities, localityId);
    l.Some? ==>
      var zone := OrderZone(l.value.links, t.subtotal - t.discount);
      zone.Ok? ==> SteadyAt(s.rates, s.now, s.courierNow, RateContext(l.value, zone.value, t, express))
  }

  lemma NowhereToDeliver(s: Snapshot, localityId: int, t: Totals, express: bool)
    requires var l := FindLocality(s.localities, localityId);
      l.None? || QuoteZone(l.value.links, t.subtotal - t.discount).Err?
    ensures QuoteCourier(s, localityId, t, express).Err? && OrderCourier(s, localityId, t, express).Err?
  {
  }

  /** When the same rates are chosen at both readings of the clock, the order delivers exactly when
      the quote does and no chosen fee is negative, on the same terms. And whenever one of them
      delivers without a negative fee, their answers are equal exactly in that case. */
  lemma CourierAgrees(s: Snapshot, localityId: int, t: Totals, express: bool)
    ensures SteadyChoices(s, localityId, t, express) ==>
      SameTerms(QuoteCourier(s, localityId, t, express), OrderCourier(s, localityId, t, express))
    ensures Delivers(QuoteCourier(s, localityId, t, express), OrderCourier(s, localityId, t, express)) ==>
      (QuoteCourier(s, localityId, t, express) == OrderCourier(s, localityId, t, express) <==>
        SteadyChoices(s, localityId, t, express))
  {
    var l := FindLocality(s.localities, localityId);
    if l.Some? && QuoteZone(l.value.links, t.subtotal - t.discount).Ok? {
      var zone := QuoteZone(l.value.links, t.subtotal - t.discount).value;
      var c := RateContext(l.value, zone, t, express);
      QuoteCourierIs(s, localityId, t, express, l.value, zone);
      OrderCourierIs(s, localityId, t, express, l.value, zone);
      SteadyIs(s, localityId, t, express, l.value, zone);
      WithinAgrees(s.rates, s.now, s.courierNow, c, zone);
    } else {
      NowhereToDeliver(s, localityId, t, express);
    }
  }

  lemma SteadyIs(s: Snapshot, localityId: int, t: Totals, express: bool, l: Locality, zone: Zone)
    requires FindLocality(s.localities, localityId) == Some(l) &&
      OrderZone(l.links, t.subtotal - t.discount) == Ok(zone)
    ensures SteadyChoices(s, localityId, t, express) ==
      SteadyAt(s.rates, s.now, s.courierNow, RateContext(l, zone, t, express))
  {
  }

  // A disagreement.

  function BaseRateOf(id: int, fee: int): Rate {
    Rate(id, Base, 0, fee, None, None, None, None, None, None, None, None, None)
  }

  const OpenZone := Zone(1, true, true, false, 0, None, None, None)

  const Town := Locality.Locality(1, true, 1, 1, [ZoneLink(true, None, OpenZone)])

  /** A base rate of 7000 until time 5 and one of 8000 from then on. */
  const RateChange := [RateRow(BaseRateOf(1, 7_000), true, None, Some(5)),
                       RateRow(BaseRateOf(2, 8_000), true, Some(5), None)]

  /** The fields of a rate that applies everywhere and is neither bounded nor limited. */
  predicate Plain(r: Rate) { r == BaseRateOf(r.id, r.fee) && 0 <= r.fee <= MAX_SAFE }

  lemma OneBase(r: Rate, c: Context)
    requires Plain(r)
    ensures SelectBaseRate([r], c) == Ok(r)
  {
    assert [r][..0] == [] && Eligible(r, c, BaseRate);
    assert Candidates([r], c, BaseRate) == [Ranked(r, 1)];
    SortOne(Ranked(r, 1), Before);
  }

  lemma {:induction false} NoSurcharges(r: Rate, c: Context, kinds: seq<RateType>)
    requires Plain(r) && Base !in kinds
    ensures QuoteSurcharges([r], c, kinds) == Ok([])
    decreases |kinds|
  {
    if kinds != [] {
      assert kinds[0] in kinds && forall k | k in kinds[1..] :: k in kinds;
      NoneMeaning([r], c, Surcharge(kinds[0]));
      assert SelectSurchargeRate([r], c, kinds[0]) == Ok(None);
      NoSurcharges(r, c, kinds[1..]);
      var none: seq<Rate> := [];
      assert none + none == none;
    }
  }

  lemma OneRate(r: Rate, c: Context)
    requires Plain(r) && !c.express
    ensures QuoteRates([r], c) == Ok([r])
  {
    OneBase(r, c);
    NoSurcharges(r, c, QuoteSurchargeTypes);
    assert [r] + [] == [r];
  }

  lemma OneFee(r: Rate, order: int)
    requires Plain(r)
    ensures QuoteCharge(OpenZone, [r], order) == Ok(Fulfillment(r.fee, None, [r]))
  {
    assert Fees([r]) == [r.fee] && [r.fee][..0] == [];
    assert Sum([r.fee], v => v) == r.fee;
    assert Limits([r]) == [None] && [OpenZone.maxCod] == [None];
    var unset: seq<Option<int>> := [None];
    assert unset[..0] == [] && Present(unset) == [];
  }

  lemma OnlyZone(links: seq<ZoneLink>, order: int)
    requires links == [ZoneLink(true, None, OpenZone)]
    ensures QuoteZone(links, order) == OrderZone(links, order) == Ok(OpenZone)
  {
    var zones := [PrioritizedZone(OpenZone, 0)];
    assert links[1..] == [] && OpenZones(links) == zones;
    SortOne(zones[0], ZoneBefore);
  }

  lemma ChangeQueried(c: Context)
    ensures QueryRates(RateChange, 0, c) == [BaseRateOf(1, 7_000)]
    ensures QueryRates(RateChange, 10, c) == [BaseRateOf(2, 8_000)]
  {
    var first := RateChange[..1];
    assert first[..0] == [] && RateChange[..|RateChange| - 1] == first;
    assert QueryRates(first, 0, c) == [BaseRateOf(1, 7_000)] && QueryRates(first, 10, c) == [];
  }

  lemma ChangeCharged(c: Context)
    requires !c.express
    ensures QuoteWithin(RateChange, 0, c, OpenZone) == Ok(Fulfillment(7_000, None, [BaseRateOf(1, 7_000)]))
    ensures QuoteWithin(RateChange, 10, c, OpenZone) == Ok(Fulfillment(8_000, None, [BaseRateOf(2, 8_000)]))
  {
    var before, after := BaseRateOf(1, 7_000), BaseRateOf(2, 8_000);
    ChangeQueried(c);
    OneRate(before, c);
    OneRate(after, c);
    OneFee(before, c.order);
    OneFee(after, c.order);
    QuoteWithinIs(RateChange, 0, c, OpenZone);
    QuoteWithinIs(RateChange, 10, c, OpenZone);
  }

  lemma ChangeOrdered(c: Context)
    requires !c.express
    ensures OrderWithin(RateChange, 0, c, OpenZone) == QuoteWithin(RateChange, 0, c, OpenZone)
  {
    ChangeCharged(c);
    OrderWithinIs(RateChange, 0, c, OpenZone);
    assert NoNegativeFee([BaseRateOf(1, 7_000)]);
  }

  /** A rate that changes between the two readings: the order delivers for 7000, the quote for 8000. */
  lemma RateChangeMisleads(t: Totals)
    ensures var s := Snapshot(0, 10, true, Some(18), [], [], [Town], RateChange);
      && QuoteCourier(s, 1, t, false) == Ok(Fulfillment(8_000, None, [BaseRateOf(2, 8_000)]))
      && OrderCourier(s, 1, t, false) == Ok(Fulfillment(7_000, None, [BaseRateOf(1, 7_000)]))
      && !SteadyChoices(s, 1, t, false)
  {
    var s := Snapshot(0, 10, true, Some(18), [], [], [Town], RateChange);
    var c := RateContext(Town, OpenZone, t, false);
    ChangeCharged(c);
    ChangeOrdered(c);
    OnlyZone(Town.links, t.subtotal - t.discount);
    QuoteCourierIs(s, 1, t, false, Town, OpenZone);
    OrderCourierIs(s, 1, t, false, Town, OpenZone);
    CourierAgrees(s, 1, t, false);
  }
}
