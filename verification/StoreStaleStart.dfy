/** A run in which a checkout that started early answers INVENTORY_INVARIANT_BREACH although nothing
    is oversold: one unit of stock is ordered, its reservation expires unswept, the unit is ordered
    again, and then the transaction of a third customer, started just before the expiry, gets its
    locks. */
module StoreStaleStart {
  import opened Wrappers
  import opened Sums
  import opened StoreTypes
  import opened StoreProof
  import opened StoreTheorems
  import A = Allocation
  import P = CheckoutPricing
  import Q = CheckoutProof
  import Money

  const Unit := [A.Request(7, 1)]

  const Shelf := P.Variant(7, true, 100, None, 0, 1, None, [])

  const Catalog := P.Snapshot(0, 0, true, Some(18), [Shelf], [P.Pickup(1, true, None, None)], [], [])

  const Wanted := Input(Unit, None, Some(1), None, 0)

  function At(started: int): Env { Env(started, Catalog, {0}, true, true) }

  /** One unit of one item, all carts asking for it. */
  predicate OneUnit(s: Store) { s.items == [StockItem(7, 1)] }

  lemma LineOfUnit(fetched: seq<P.Variant>, now: int, v: P.Variant)
    requires fetched == [v] && v == Shelf.(inventory := v.inventory) && P.Available(v, now) >= 1
    ensures P.QuoteLines(fetched, now, Unit, P.NothingPriced).Ok?
    ensures var t := P.QuoteLines(fetched, now, Unit, P.NothingPriced).value.totals; t == P.Totals(100, 0, 0, 1)
  {
    Money.AddTwo(100, -100);
    Money.AddTwo(100, 0);
    Money.AddTwo(0, 100);
    Money.AddTwo(0, 0);
    Money.AddTwo(0, 1);
    assert P.Find(fetched, 7) == Some(v);
    assert P.CalculateQuoteLine(100, None, 1, 0) == Ok(P.LineCalculation(100, 0, 100, 0, 100, 100));
    assert Unit[1..] == [];
  }

  lemma EndOfUnit(v: P.Snapshot, p: P.Priced)
    requires v.pickups == Catalog.pickups && p.totals == P.Totals(100, 0, 0, 1)
    ensures P.QuoteFrom(v, RequestOf(Wanted), p).Ok?
  {
    Money.AddTwo(100, 0);
    Money.AddThree(100, 0, 0);
  }

  lemma FetchUnit(v: P.Variant)
    requires v == Shelf.(inventory := v.inventory)
    ensures P.Fetch([v], Unit) == [v]
  {
    assert [v][..0] == [] && P.Fetch([], Unit) == [];
    assert Unit[0].variant == v.id;
  }

  /** The view of the one item: its row, and the unit available while nothing is reserved. */
  lemma UnitSeen(s: Store, started: int) returns (v: P.Variant)
    requires OneUnit(s)
    ensures View(s, At(started)).variants == [v] && v == Shelf.(inventory := v.inventory)
    ensures v.inventory == [InventoryRow(s.items, s.reservations, {0}, 0)]
    ensures Reserved(s, 0, started) == 0 ==> P.Available(v, started) == 1
  {
    var row := InventoryRow(s.items, s.reservations, {0}, 0);
    v := WithStock(s.items, s.reservations, {0}, Shelf);
    assert InventoryFor(s.items, s.reservations, {0}, 7, 0) == [];
    assert v.inventory == [row];
    assert View(s, At(started)).variants == [v];
    ReservedView(s.reservations, 0, started);
    SumAppend([], row, P.AvailableIn(started));
    assert [] + [row] == [row];
  }

  /** While nothing is reserved the unit can be ordered. */
  lemma UnitOrders(s: Store, started: int)
    requires Inv(s) && OneUnit(s) && Since(s, started) && started <= s.clock && Reserved(s, 0, started) == 0
    ensures P.OrderSpec(View(s, At(started)), RequestOf(Wanted)).Ok?
  {
    var view := View(s, At(started));
    var v := UnitSeen(s, started);
    FetchUnit(v);
    LineOfUnit([v], started, v);
    EndOfUnit(view, P.QuoteLines([v], started, Unit, P.NothingPriced).value);
    ViewVariants(s, At(started));
    ViewSound(s, At(started), Unit);
    Q.SteadyClock(view, RequestOf(Wanted));
    Q.OrderRefinesQuote(view, RequestOf(Wanted));
  }

  lemma UnitCreates(s: Store, customer: nat, c: nat, started: int)
    requires Inv(s) && OneUnit(s) && Since(s, started) && started <= s.clock && Reserved(s, 0, started) == 0
    requires FindClaim(s.claims, KeyHash(customer, 0)).None?
    requires CandidateCart(s.carts, customer, |s.carts|) == Some(c) && s.carts[c].expiresAt.None? &&
      s.carts[c].items == Unit
    ensures Checkout(s, Submission(customer, 0, Wanted), At(started)).1.Created?
  {
    UnitOrders(s, started);
    OrderTakes(s, At(started), RequestOf(Wanted));
    assert View(WithClaim(s, Submission(customer, 0, Wanted)), At(started)) == View(s, At(started));
  }

  lemma RowsHoldUnit(s: Store, allocations: seq<A.Allocation>, order: nat, expiresAt: int, at: int)
    requires OneUnit(s) && at < expiresAt
    requires forall a | a in allocations :: 0 <= a.item < |s.items| && s.items[a.item].variant == a.variant
    ensures Sum(NewReservations(allocations, order, expiresAt), Holding(0, at)) == A.Handed(allocations, A.OfVariant(7))
  {
    var rows := NewReservations(allocations, order, expiresAt);
    RowsAsAllocated(s, allocations, order, expiresAt, 7);
    forall r | r in rows ensures Holding(0, at)(r) == OfVariant(s.items, 7)(r) {
      var j :| 0 <= j < |rows| && rows[j] == r;
      assert allocations[j] in allocations;
    }
    SumEq(rows, Holding(0, at), OfVariant(s.items, 7));
  }

  /** The rows of an order of the unit hold it until they expire. */
  lemma UnitRows(s: Store, started: int, at: int)
    requires RowsOk(s) && OneUnit(s) && P.OrderSpec(View(s, At(started)), RequestOf(Wanted)).Ok?
    requires TakesFit(s, started, P.OrderSpec(View(s, At(started)), RequestOf(Wanted)).value.allocations)
    ensures var allocations := P.OrderSpec(View(s, At(started)), RequestOf(Wanted)).value.allocations;
      Sum(NewReservations(allocations, |s.orders|, started + RESERVATION_TTL), Holding(0, at)) ==
        if at < started + RESERVATION_TTL then 1 else 0
  {
    var allocations := P.OrderSpec(View(s, At(started)), RequestOf(Wanted)).value.allocations;
    if at < started + RESERVATION_TTL {
      QuotedAndTaken(s, At(started), RequestOf(Wanted), 7);
      RowsHoldUnit(s, allocations, |s.orders|, started + RESERVATION_TTL, at);
      Q.RequestedOnce(Unit, 0);
    } else {
      SumNothing(NewReservations(allocations, |s.orders|, started + RESERVATION_TTL), Holding(0, at));
    }
  }

  /** The new rows hold the unit until they expire; the claim and the cart are settled. */
  lemma UnitHeld(s: Store, customer: nat, started: int, at: int)
    requires Reachable(s) && OneUnit(s) && started <= s.clock
    requires Checkout(s, Submission(customer, 0, Wanted), At(started)).1.Created?
    ensures var t := Checkout(s, Submission(customer, 0, Wanted), At(started)).0;
      Reserved(t, 0, at) == Reserved(s, 0, at) + if at < started + RESERVATION_TTL then 1 else 0
  {
    ReachableInv(s);
    var order, rows, o := CreatedRows(s, Submission(customer, 0, Wanted), At(started));
    SumConcat(s.reservations, rows, Holding(0, at));
    UnitRows(s, started, at);
  }

  lemma UnitHeldAlways(s: Store, customer: nat, started: int)
    requires Reachable(s) && OneUnit(s) && started <= s.clock
    requires Checkout(s, Submission(customer, 0, Wanted), At(started)).1.Created?
    ensures var t := Checkout(s, Submission(customer, 0, Wanted), At(started)).0;
      forall at: int :: Reserved(t, 0, at) == Reserved(s, 0, at) + if at < started + RESERVATION_TTL then 1 else 0
  {
    var t := Checkout(s, Submission(customer, 0, Wanted), At(started)).0;
    forall at: int ensures Reserved(t, 0, at) == Reserved(s, 0, at) + if at < started + RESERVATION_TTL then 1 else 0 {
      UnitHeld(s, customer, started, at);
    }
  }

  /** What an order leaves in the other tables. */
  ghost predicate SettledAs(s: Store, t: Store, customer: nat, started: int) {
    && t.clock == s.clock && t.items == s.items && |t.carts| == |s.carts|
    && (forall o | o in t.orders :: o in s.orders || o.createdAt == started)
    && (forall x | x in t.claims :: x.hash == KeyHash(customer, 0) || exists y :: y in s.claims && y.hash == x.hash)
    && (forall k | 0 <= k < |t.carts| :: t.carts[k].customer == s.carts[k].customer)
  }

  lemma SettledTables(s: Store, sub: Submission, e: Env, c: nat, o: P.Order)
    requires c < |s.carts| && forall a | a in o.allocations :: a.item >= 0
    ensures SettledAs(s, Placed(WithClaim(s, sub), |s.claims|, sub, e, c, o), sub.customer, e.started) || sub.key != 0
  {
    var t := Placed(WithClaim(s, sub), |s.claims|, sub, e, c, o);
    forall x | x in t.claims && sub.key == 0
      ensures x.hash == KeyHash(sub.customer, 0) || exists y :: y in s.claims && y.hash == x.hash
    {
      var k :| 0 <= k < |t.claims| && t.claims[k] == x;
      if k < |s.claims| { assert s.claims[k] in s.claims; }
    }
  }

  lemma UnitSettled(s: Store, customer: nat, started: int)
    requires Inv(s) && Possible(s, At(started)) && Checkout(s, Submission(customer, 0, Wanted), At(started)).1.Created?
    ensures SettledAs(s, Checkout(s, Submission(customer, 0, Wanted), At(started)).0, customer, started)
  {
    var c, o := CheckoutPlaces(s, Submission(customer, 0, Wanted), At(started));
    SettledTables(s, Submission(customer, 0, Wanted), At(started), c, o);
  }

  lemma Reach(s: Store, step: Step)
    requires Reachable(s)
    ensures Reachable(Next(s, step))
  {
    var items: seq<StockItem>, steps: seq<Step> :|
      (forall i | i in items :: 0 <= i.onHand <= Money.MAX_SAFE) && s == Run(Start(items), steps);
    RunAppend(Start(items), steps, step);
  }

  lemma ReachCheckout(s: Store, sub: Submission, e: Env)
    requires Reachable(s) && Possible(s, e)
    ensures Reachable(Checkout(s, sub, e).0)
  {
    Reach(s, CheckoutStep(sub, e));
  }

  lemma {:induction false} RunAppend(s: Store, steps: seq<Step>, step: Step)
    ensures Run(s, steps + [step]) == Next(Run(s, steps), step)
    decreases |steps|
  {
    if steps == [] {
      assert [step][1..] == [];
    } else {
      RunAppend(Next(s, steps[0]), steps[1..], step);
      assert (steps + [step])[1..] == steps[1..] + [step];
    }
  }

  /** A customer with a cart for the unit orders it. */
  lemma PlaceUnit(s: Store, customer: nat, c: nat, started: int) returns (t: Store)
    requires Reachable(s) && OneUnit(s) && Since(s, started) && started <= s.clock && Reserved(s, 0, started) == 0
    requires FindClaim(s.claims, KeyHash(customer, 0)).None?
    requires CandidateCart(s.carts, customer, |s.carts|) == Some(c) && s.carts[c].expiresAt.None? &&
      s.carts[c].items == Unit
    ensures Reachable(t) && SettledAs(s, t, customer, started)
    ensures forall at: int :: Reserved(t, 0, at) == Reserved(s, 0, at) + if at < started + RESERVATION_TTL then 1 else 0
  {
    ReachableInv(s);
    UnitCreates(s, customer, c, started);
    t := Checkout(s, Submission(customer, 0, Wanted), At(started)).0;
    ReachCheckout(s, Submission(customer, 0, Wanted), At(started));
    UnitSettled(s, customer, started);
    UnitHeldAlways(s, customer, started);
  }

  lemma OpenUnitCart(s: Store, customer: nat) returns (t: Store)
    requires Reachable(s)
    ensures Reachable(t) && t == s.(carts := t.carts) && |t.carts| == |s.carts| + 1 && t.carts[..|s.carts|] == s.carts
    ensures t.carts[|s.carts|] == Cart(customer, CartActive, 1, s.clock, None, Unit)
  {
    t := Next(s, OpenCartStep(customer, Unit, None));
    Reach(s, OpenCartStep(customer, Unit, None));
  }

  /** The first order is placed at time 0. */
  lemma FirstOrder() returns (s: Store)
    ensures Reachable(s) && OneUnit(s) && s.clock == 0 && |s.carts| == 1 && s.carts[0].customer == 0
    ensures (forall o | o in s.orders :: o.createdAt == 0) && (forall c | c in s.claims :: c.hash == KeyHash(0, 0))
    ensures forall at: int :: Reserved(s, 0, at) == if at < RESERVATION_TTL then 1 else 0
  {
    var start := Start([StockItem(7, 1)]);
    assert Run(start, []) == start && Reachable(start);
    var ready := OpenUnitCart(start, 0);
    s := PlaceUnit(ready, 0, 0, 0);
  }

  /** Time passes until the first reservation expires, and another customer fills a cart. */
  lemma Expiry() returns (s: Store)
    ensures Reachable(s) && OneUnit(s) && s.clock == RESERVATION_TTL && |s.carts| == 2
    ensures s.carts[0].customer == 0 && s.carts[1] == Cart(1, CartActive, 1, RESERVATION_TTL, None, Unit)
    ensures (forall o | o in s.orders :: o.createdAt == 0) && (forall c | c in s.claims :: c.hash == KeyHash(0, 0))
    ensures forall at: int :: Reserved(s, 0, at) == if at < RESERVATION_TTL then 1 else 0
  {
    var first := FirstOrder();
    var later := Next(first, Tick(RESERVATION_TTL));
    Reach(first, Tick(RESERVATION_TTL));
    s := OpenUnitCart(later, 1);
    assert s.carts[0] == s.carts[..1][0];
    forall at: int ensures Reserved(s, 0, at) == if at < RESERVATION_TTL then 1 else 0 {
      assert Reserved(s, 0, at) == Reserved(first, 0, at);
    }
  }

  /** The second order takes the unit when the first reservation has expired. */
  lemma SecondOrder() returns (s: Store)
    ensures Reachable(s) && OneUnit(s) && s.clock == RESERVATION_TTL
    ensures |s.carts| == 2 && s.carts[0].customer == 0 && s.carts[1].customer == 1
    ensures forall c | c in s.claims :: c.hash == KeyHash(0, 0) || c.hash == KeyHash(1, 0)
    ensures Reserved(s, 0, RESERVATION_TTL - 1) == 2 && Reserved(s, 0, RESERVATION_TTL) == 1
  {
    var ready := Expiry();
    s := PlaceUnit(ready, 1, 1, RESERVATION_TTL);
  }

  lemma AgedLineOfUnit(fetched: seq<P.Variant>, v: P.Variant)
    requires fetched == [v] && v == Shelf.(inventory := v.inventory)
    ensures P.OrderLines(fetched, 18, Unit, P.NothingPriced).Ok?
  {
    Money.AddTwo(100, -100);
    Money.AddTwo(100, 0);
    Money.AddTwo(0, 100);
    Money.AddTwo(0, 0);
    Money.AddTwo(0, 1);
    assert P.Find(fetched, 7) == Some(v);
    assert P.CalculateQuoteLine(100, None, 1, 0) == Ok(P.LineCalculation(100, 0, 100, 0, 100, 100));
    assert Unit[1..] == [];
  }

  /** A third customer fills a cart. */
  lemma ThirdCart() returns (s: Store)
    ensures Reachable(s) && OneUnit(s) && s.clock == RESERVATION_TTL && |s.carts| == 3
    ensures s.carts[0].customer == 0 && s.carts[1].customer == 1 &&
      s.carts[2] == Cart(2, CartActive, 1, RESERVATION_TTL, None, Unit)
    ensures forall c | c in s.claims :: c.hash != KeyHash(2, 0)
    ensures Reserved(s, 0, RESERVATION_TTL - 1) == 2 && Reserved(s, 0, RESERVATION_TTL) == 1
  {
    var second := SecondOrder();
    s := OpenUnitCart(second, 2);
    assert s.carts[0] == s.carts[..2][0] && s.carts[1] == s.carts[..2][1];
    assert Reserved(s, 0, RESERVATION_TTL - 1) == Reserved(second, 0, RESERVATION_TTL - 1);
    assert Reserved(s, 0, RESERVATION_TTL) == Reserved(second, 0, RESERVATION_TTL);
  }

  lemma UnitReaches(s: Store, started: int)
    requires OneUnit(s) && |s.carts| == 3 && forall c | c in s.claims :: c.hash != KeyHash(2, 0)
    requires s.carts[0].customer == 0 && s.carts[1].customer == 1 &&
      s.carts[2] == Cart(2, CartActive, 1, RESERVATION_TTL, None, Unit)
    ensures ReachesStock(s, Submission(2, 0, Wanted), At(started))
  {
    var v := UnitSeen(s, started);
    FetchUnit(v);
    AgedLineOfUnit([v], v);
    assert CandidateCart(s.carts, 2, 3) == Some(2);
  }

  lemma UnitOverReserved(s: Store, started: int)
    requires OneUnit(s) && Reserved(s, 0, started) > 1
    ensures OverReserved(s, At(started), Unit)
  {
    var v := UnitSeen(s, started);
    FetchUnit(v);
    assert v in P.Fetch(View(s, At(started)).variants, Unit) && 0 in At(started).eligible;
  }

  /** A reachable state in which nothing is oversold and yet the checkout of a transaction that
      started a moment before the current time is refused for a breach of the inventory. */
  lemma StaleStartBreaches() returns (s: Store, sub: Submission, e: Env)
    ensures Reachable(s) && Possible(s, e) && e.started == s.clock - 1
    ensures |s.items| == 1 && Reserved(s, 0, s.clock) <= s.items[0].onHand
    ensures Checkout(s, sub, e).1 == Refused(NotPriced(P.InventoryInvariantBreach))
  {
    s := ThirdCart();
    sub, e := Submission(2, 0, Wanted), At(RESERVATION_TTL - 1);
    UnitReaches(s, e.started);
    UnitOverReserved(s, e.started);
    BreachAnswersExactly(s, sub, e);
  }
}
