/** What holds of orders, stock, carts and claims after every transaction. */
module StoreProof {
  import opened Wrappers
  import opened Sums
  import opened Sorting
  import opened StoreTypes
  import A = Allocation
  import P = CheckoutPricing
  import Q = CheckoutProof
  import Money

  // The invariant.

  /** Every order that exists was started by this time. */
  predicate Since(s: Store, at: int) { forall o | o in s.orders :: o.createdAt <= at }

  /** From the latest order on, active reservations hold no more than there is. */
  ghost predicate StockOk(s: Store) {
    forall i: nat, at: int | i < |s.items| && Since(s, at) :: Reserved(s, i, at) <= s.items[i].onHand
  }

  predicate ItemsOk(s: Store) { forall i | i in s.items :: 0 <= i.onHand <= Money.MAX_SAFE }

  predicate RowOk(s: Store, r: Reservation) {
    r.item < |s.items| && r.order < |s.orders| && 0 < r.quantity <= Money.MAX_SAFE
  }

  /** An order reserves an item at most once, so active keys never collide. */
  predicate RowsOk(s: Store) {
    && (forall r | r in s.reservations :: RowOk(s, r))
    && (forall i, j | 0 <= i < j < |s.reservations| ::
      s.reservations[i].item != s.reservations[j].item || s.reservations[i].order != s.reservations[j].order)
  }

  function Count(moves: seq<Movement>, m: Movement): nat { multiset(moves)[m] }

  /** One reserving movement a reservation, and one releasing movement once it has expired. */
  predicate MovesFor(moves: seq<Movement>, r: Reservation) {
    && Count(moves, Movement(Reserving, r.item, r.order)) == 1
    && Count(moves, Movement(Releasing, r.item, r.order)) == if r.state == Expired then 1 else 0
  }

  predicate MovesOk(s: Store) {
    && (forall r | r in s.reservations :: MovesFor(s.movements, r))
    && (forall m | m in s.movements :: m.order < |s.orders|)
  }

  /** Claim k is settled and stands for order k. */
  predicate ClaimOk(s: Store, k: nat)
    requires k < |s.claims|
  {
    var c := s.claims[k];
    && c.order == Some(k) && c.completedAt.Some? && c.scope == c.hash.scope && k < |s.orders|
    && c.scope == s.orders[k].customer && c.fingerprint.items == Sort(s.orders[k].lines, A.ByVariant)
  }

  predicate ClaimsOk(s: Store) {
    && |s.claims| == |s.orders|
    && (forall k: nat | k < |s.claims| :: ClaimOk(s, k))
    && (forall i, j | 0 <= i < j < |s.claims| :: s.claims[i].hash != s.claims[j].hash)
  }

  predicate CartOf(s: Store, o: Order) {
    && o.cart < |s.carts| && s.carts[o.cart].status == CartConverted && s.carts[o.cart].customer == o.customer
    && multiset(o.lines) == multiset(s.carts[o.cart].items)
  }

  predicate CartsOk(s: Store) {
    && (forall o | o in s.orders :: CartOf(s, o))
    && (forall i, j | 0 <= i < j < |s.orders| :: s.orders[i].cart != s.orders[j].cart)
  }

  ghost predicate Inv(s: Store) {
    ItemsOk(s) && RowsOk(s) && StockOk(s) && MovesOk(s) && ClaimsOk(s) && CartsOk(s) && Since(s, s.clock)
  }

  // Stock as the order sees it.

  lemma {:induction false} ReservedView(reservations: seq<Reservation>, item: nat, at: int)
    ensures P.Reserved(ReservationsOf(reservations, item), at) == Sum(reservations, Holding(item, at))
  {
    if reservations != [] {
      var n := |reservations| - 1;
      var front, r := reservations[..n], reservations[n];
      ReservedView(front, item, at);
      assert ReservationsOf(front, item) + [] == ReservationsOf(front, item);
      if r.item == item {
        SumAppend(ReservationsOf(front, item), P.Reservation(r.state == Active, r.expiresAt, r.quantity),
          P.Counted(at));
      }
    }
  }

  lemma {:induction false} ViewQuantities(s: Store, reservations: seq<Reservation>, item: nat)
    requires forall r | r in reservations :: RowOk(s, r)
    ensures forall r | r in ReservationsOf(reservations, item) :: 0 < r.quantity <= Money.MAX_SAFE
  {
    if reservations != [] {
      var n := |reservations| - 1;
      ViewQuantities(s, reservations[..n], item);
      assert reservations[n] in reservations && forall r | r in reservations[..n] :: r in reservations;
    }
  }

  /** What a stock row of the view says about the tables. */
  predicate RowView(s: Store, i: P.Inventory, variant: int, at: int) {
    && 0 <= i.id < |s.items| && s.items[i.id].variant == variant && i.onHand == s.items[i.id].onHand
    && P.Reserved(i.reservations, at) == Reserved(s, i.id, at)
    && forall r | r in i.reservations :: 0 < r.quantity <= Money.MAX_SAFE
  }

  lemma RowSeen(s: Store, eligible: set<nat>, i: nat, at: int)
    requires i < |s.items| && RowsOk(s)
    ensures RowView(s, InventoryRow(s.items, s.reservations, eligible, i), s.items[i].variant, at)
  {
    ReservedView(s.reservations, i, at);
    ViewQuantities(s, s.reservations, i);
  }

  function InventoryId(i: P.Inventory): int { i.id }

  lemma {:induction false} InventoryView(s: Store, eligible: set<nat>, variant: int, n: nat, at: int)
    requires n <= |s.items| && RowsOk(s)
    ensures var rows := InventoryFor(s.items, s.reservations, eligible, variant, n);
      && (forall i | i in rows :: RowView(s, i, variant, at) && i.id < n)
      && DistinctBy(rows, InventoryId)
  {
    if n > 0 {
      InventoryView(s, eligible, variant, n - 1, at);
      RowSeen(s, eligible, n - 1, at);
    }
  }

  lemma ReservedNonNegative(s: Store, i: nat, at: int)
    requires RowsOk(s)
    ensures Reserved(s, i, at) >= 0
  {
    SumNonNegative(s.reservations, Holding(i, at));
  }

  /** Without an order from the future no stock row looks over-reserved. */
  lemma VariantSound(s: Store, eligible: set<nat>, v: P.Variant, at: int)
    requires Inv(s) && Since(s, at)
    ensures Q.SoundVariant(WithStock(s.items, s.reservations, eligible, v), at)
  {
    InventoryView(s, eligible, v.id, |s.items|, at);
    forall i | i in WithStock(s.items, s.reservations, eligible, v).inventory ensures Q.SoundStock(i, at) {
      assert RowView(s, i, v.id, at);
      ReservedNonNegative(s, i.id, at);
      assert s.items[i.id] in s.items;
    }
  }

  // The buckets an order may take from.

  predicate BucketFor(s: Store, b: A.Bucket, variant: int, at: int) {
    && 0 <= b.id < |s.items| && s.items[b.id].variant == variant == b.variant
    && b.available == s.items[b.id].onHand - Reserved(s, b.id, at) && b.available >= 0
  }

  lemma {:induction false} BucketsOfView(s: Store, inventory: seq<P.Inventory>, variant: int, at: int)
    requires forall i | i in inventory :: RowView(s, i, variant, at)
    requires DistinctBy(inventory, InventoryId) && P.BucketsOf(inventory, variant, at).Ok?
    ensures var b := P.BucketsOf(inventory, variant, at).value;
      && (forall x | x in b :: BucketFor(s, x, variant, at) && exists i :: i in inventory && i.id == x.id)
      && DistinctBy(b, A.IdOf)
  {
    if inventory != [] {
      var n := |inventory| - 1;
      var front, last := inventory[..n], inventory[n];
      BucketsOfView(s, front, variant, at);
      Q.ReservedCheckedIff(last.reservations, at);
      assert last in inventory && RowView(s, last, variant, at);
      forall x | x in P.BucketsOf(front, variant, at).value
        ensures A.IdOf(x) != last.id && exists i :: i in inventory && i.id == x.id
      {
        var i :| i in front && i.id == x.id;
        var k :| 0 <= k < |front| && front[k] == i;
        assert InventoryId(inventory[k]) != InventoryId(inventory[n]);
        assert inventory[k] in inventory;
      }
    }
  }

  predicate AnyBucketFor(s: Store, b: A.Bucket, at: int) { BucketFor(s, b, b.variant, at) }

  lemma {:induction false} BucketsView(s: Store, eligible: set<nat>, fetched: seq<P.Variant>, at: int)
    requires RowsOk(s) && DistinctBy(fetched, Q.VariantId) && P.Buckets(fetched, at).Ok?
    requires forall v | v in fetched :: v == WithStock(s.items, s.reservations, eligible, v)
    ensures var b := P.Buckets(fetched, at).value;
      && (forall x | x in b :: AnyBucketFor(s, x, at) && exists v :: v in fetched && v.id == x.variant)
      && DistinctBy(b, A.IdOf)
  {
    if fetched != [] {
      var n := |fetched| - 1;
      var front, last := fetched[..n], fetched[n];
      assert last in fetched && last == WithStock(s.items, s.reservations, eligible, last);
      BucketsView(s, eligible, front, at);
      InventoryView(s, eligible, last.id, |s.items|, at);
      BucketsOfView(s, last.inventory, last.id, at);
      var a, b := P.Buckets(front, at).value, P.BucketsOf(last.inventory, last.id, at).value;
      forall x | x in a ensures x.variant != last.id && exists v :: v in fetched && v.id == x.variant {
        var v :| v in front && v.id == x.variant;
        var k :| 0 <= k < |front| && front[k] == v;
        assert Q.VariantId(fetched[k]) != Q.VariantId(fetched[n]);
        assert fetched[k] in fetched;
      }
      forall x | x in b ensures exists v :: v in fetched && v.id == x.variant {
        assert BucketFor(s, x, last.id, at) && last in fetched;
      }
      forall i, j | 0 <= i < |a| && 0 <= j < |b| ensures a[i].id != b[j].id {
        assert AnyBucketFor(s, a[i], at) && BucketFor(s, b[j], last.id, at) && a[i] in a;
      }
    }
  }

  lemma {:induction false} FetchView(s: Store, e: Env, variants: seq<P.Variant>, items: seq<A.Request>)
    requires forall v | v in variants :: v == WithStock(s.items, s.reservations, e.eligible, v)
    ensures forall v | v in P.Fetch(variants, items) :: v == WithStock(s.items, s.reservations, e.eligible, v)
  {
  }

  lemma ViewVariants(s: Store, e: Env)
    requires DistinctBy(e.catalog.variants, VariantKey)
    ensures forall v | v in View(s, e).variants :: v == WithStock(s.items, s.reservations, e.eligible, v)
    ensures DistinctBy(View(s, e).variants, Q.VariantId)
  {
    var vs := View(s, e).variants;
    forall i, j | 0 <= i < j < |vs| ensures Q.VariantId(vs[i]) != Q.VariantId(vs[j]) {
      assert VariantKey(e.catalog.variants[i]) != VariantKey(e.catalog.variants[j]);
    }
  }

  /** What a priced order takes of an item fits beside what was reserved of it when it started. */
  ghost predicate TakesFit(s: Store, at: int, allocations: seq<A.Allocation>) {
    && DistinctBy(allocations, A.ItemOf)
    && (forall a | a in allocations ::
      0 <= a.item < |s.items| && 0 < a.quantity <= s.items[a.item].onHand - Reserved(s, a.item, at))
  }

  lemma AllocationFits(s: Store, at: int, buckets: seq<A.Bucket>, items: seq<A.Request>)
    requires (forall b | b in buckets :: AnyBucketFor(s, b, at)) && DistinctBy(buckets, A.IdOf)
    requires DistinctBy(items, A.VariantOf) && A.Allocate(items, buckets).Some?
    ensures TakesFit(s, at, A.Allocate(items, buckets).value)
  {
    var allocations := A.Allocate(items, buckets).value;
    A.AllocateUsesBucketsOnce(items, buckets);
    forall a | a in allocations
      ensures 0 <= a.item < |s.items| && 0 < a.quantity <= s.items[a.item].onHand - Reserved(s, a.item, at)
    {
      A.AllocateMeetsRequests(items, buckets, a.variant, a.item);
      assert A.FromBuckets(a, items, buckets);
      var i :| 0 <= i < |buckets| && buckets[i].id == a.item && buckets[i].variant == a.variant;
      assert AnyBucketFor(s, buckets[i], at);
      OneBucket(buckets, i);
      OneAllocation(allocations, a);
    }
  }

  lemma OneBucket(buckets: seq<A.Bucket>, i: nat)
    requires i < |buckets| && DistinctBy(buckets, A.IdOf)
    ensures A.Stock(buckets, A.OfItem(buckets[i].id)) == A.Positive(buckets[i].available)
  {
    forall j | 0 <= j < |buckets| && j != i ensures A.Held(A.OfItem(buckets[i].id))(buckets[j]) == 0 {
      assert A.IdOf(buckets[j]) != A.IdOf(buckets[i]);
    }
    SumSingle(buckets, A.Held(A.OfItem(buckets[i].id)), i);
  }

  lemma OneAllocation(allocations: seq<A.Allocation>, a: A.Allocation)
    requires a in allocations && DistinctBy(allocations, A.ItemOf)
    ensures A.Handed(allocations, A.OfItem(a.item)) == a.quantity
  {
    var k :| 0 <= k < |allocations| && allocations[k] == a;
    forall j | 0 <= j < |allocations| && j != k ensures A.Given(A.OfItem(a.item))(allocations[j]) == 0 {
      assert A.ItemOf(allocations[j]) != A.ItemOf(allocations[k]);
    }
    SumSingle(allocations, A.Given(A.OfItem(a.item)), k);
  }

  /** The allocations of an order priced on a view of these tables. */
  lemma OrderTakes(s: Store, e: Env, r: P.Request)
    requires RowsOk(s) && DistinctBy(e.catalog.variants, VariantKey) && P.OrderSpec(View(s, e), r).Ok?
    ensures TakesFit(s, e.started, P.OrderSpec(View(s, e), r).value.allocations)
  {
    var v := View(s, e);
    var fetched := P.Fetch(v.variants, r.items);
    ViewVariants(s, e);
    FetchView(s, e, v.variants, r.items);
    Q.FetchDistinct(v.variants, r.items);
    BucketsView(s, e.eligible, fetched, v.now);
    AllocationFits(s, v.now, P.Buckets(fetched, v.now).value, r.items);
  }

  // Placing an order.

  lemma ReservedShrinks(s: Store, i: nat, from: int, to: int)
    requires RowsOk(s) && from <= to
    ensures Reserved(s, i, to) <= Reserved(s, i, from)
  {
    SumLe(s.reservations, Holding(i, to), Holding(i, from));
  }

  /** New rows hold of each item what its one allocation says, or nothing. */
  lemma NewRowsHold(s: Store, started: int, allocations: seq<A.Allocation>, order: nat, i: nat, at: int)
    requires RowsOk(s) && TakesFit(s, started, allocations) && i < |s.items| && started <= at
    requires Reserved(s, i, at) <= s.items[i].onHand
    ensures Reserved(s, i, at) +
      Sum(NewReservations(allocations, order, started + RESERVATION_TTL), Holding(i, at)) <= s.items[i].onHand
  {
    var rows := NewReservations(allocations, order, started + RESERVATION_TTL);
    if k :| 0 <= k < |allocations| && allocations[k].item == i {
      forall j | 0 <= j < |rows| && j != k ensures Holding(i, at)(rows[j]) == 0 {
        assert A.ItemOf(allocations[j]) != A.ItemOf(allocations[k]);
      }
      SumSingle(rows, Holding(i, at), k);
      assert allocations[k] in allocations;
      ReservedShrinks(s, i, started, at);
    } else {
      SumNothing(rows, Holding(i, at));
    }
  }

  /** A row that an allocation gives rise to. */
  lemma NewRowOk(s: Store, started: int, allocations: seq<A.Allocation>, j: nat, s': Store)
    requires RowsOk(s) && ItemsOk(s) && TakesFit(s, started, allocations) && j < |allocations|
    requires s'.items == s.items && |s'.orders| == |s.orders| + 1
    ensures RowOk(s', NewReservations(allocations, |s.orders|, started + RESERVATION_TTL)[j])
  {
    var a := allocations[j];
    assert a in allocations;
    ReservedNonNegative(s, a.item, started);
    assert s.items[a.item] in s.items;
  }

  lemma NewRowsApart(s: Store, started: int, allocations: seq<A.Allocation>, i: nat, j: nat)
    requires RowsOk(s) && TakesFit(s, started, allocations)
    requires i < j < |s.reservations| + |allocations|
    ensures var all := s.reservations + NewReservations(allocations, |s.orders|, started + RESERVATION_TTL);
      all[i].item != all[j].item || all[i].order != all[j].order
  {
    var n := |s.reservations|;
    if i >= n {
      assert A.ItemOf(allocations[i - n]) != A.ItemOf(allocations[j - n]);
    } else if j >= n {
      assert s.reservations[i] in s.reservations && RowOk(s, s.reservations[i]);
    }
  }

  lemma PlacedRows(s: Store, k: nat, sub: Submission, e: Env, c: nat, o: P.Order)
    requires k < |s.claims| && c < |s.carts| && RowsOk(s) && ItemsOk(s) && TakesFit(s, e.started, o.allocations)
    ensures RowsOk(Placed(s, k, sub, e, c, o))
  {
    var rows := NewReservations(o.allocations, |s.orders|, e.started + RESERVATION_TTL);
    var s' := Placed(s, k, sub, e, c, o);
    forall r | r in s'.reservations ensures RowOk(s', r) {
      if r in s.reservations {
        assert RowOk(s, r);
      } else {
        var j :| 0 <= j < |rows| && rows[j] == r;
        NewRowOk(s, e.started, o.allocations, j, s');
      }
    }
    forall i, j | 0 <= i < j < |s'.reservations|
      ensures s'.reservations[i].item != s'.reservations[j].item ||
        s'.reservations[i].order != s'.reservations[j].order
    {
      NewRowsApart(s, e.started, o.allocations, i, j);
    }
  }

  lemma PlacedStock(s: Store, k: nat, sub: Submission, e: Env, c: nat, o: P.Order)
    requires k < |s.claims| && c < |s.carts| && RowsOk(s) && StockOk(s) && TakesFit(s, e.started, o.allocations)
    ensures StockOk(Placed(s, k, sub, e, c, o))
  {
    var rows := NewReservations(o.allocations, |s.orders|, e.started + RESERVATION_TTL);
    var s' := Placed(s, k, sub, e, c, o);
    assert s'.orders[|s.orders|] in s'.orders && forall x | x in s.orders :: x in s'.orders;
    forall i: nat, at: int | i < |s'.items| && Since(s', at) ensures Reserved(s', i, at) <= s'.items[i].onHand {
      assert Since(s, at) && e.started <= at;
      PlacedStockAt(s, e.started, o.allocations, i, at);
    }
  }

  lemma PlacedStockAt(s: Store, started: int, allocations: seq<A.Allocation>, i: nat, at: int)
    requires RowsOk(s) && StockOk(s) && TakesFit(s, started, allocations)
    requires i < |s.items| && Since(s, at) && started <= at
    ensures var rows := NewReservations(allocations, |s.orders|, started + RESERVATION_TTL);
      Sum(s.reservations + rows, Holding(i, at)) <= s.items[i].onHand
  {
    NewRowsHold(s, started, allocations, |s.orders|, i, at);
    SumConcat(s.reservations, NewReservations(allocations, |s.orders|, started + RESERVATION_TTL), Holding(i, at));
  }

  lemma MovesOfOthers(moves: seq<Movement>, extra: seq<Movement>, m: Movement)
    requires m !in extra
    ensures Count(moves + extra, m) == Count(moves, m)
  {
    assert m !in multiset(extra);
  }

  lemma CountOnce(moves: seq<Movement>, k: nat)
    requires k < |moves| && forall j | 0 <= j < |moves| && j != k :: moves[j] != moves[k]
    ensures Count(moves, moves[k]) == 1
  {
    var m := moves[k];
    assert moves == moves[..k] + [m] + moves[k + 1..];
    assert m !in moves[..k] && m !in moves[k + 1..];
    assert multiset(moves) == multiset(moves[..k]) + multiset{m} + multiset(moves[k + 1..]);
  }

  lemma NoneYet(s: Store, kind: MovementKind, item: nat)
    requires MovesOk(s)
    ensures Count(s.movements, Movement(kind, item, |s.orders|)) == 0
  {
    if Movement(kind, item, |s.orders|) in s.movements { assert false; }
  }

  lemma OldMoves(s: Store, rows: seq<Reservation>, r: Reservation)
    requires RowsOk(s) && MovesOk(s) && r in s.reservations && forall x | x in rows :: x.order == |s.orders|
    ensures MovesFor(s.movements + Moves(Reserving, rows), r)
  {
    assert RowOk(s, r) && MovesFor(s.movements, r);
    MovesOfOthers(s.movements, Moves(Reserving, rows), Movement(Reserving, r.item, r.order));
    MovesOfOthers(s.movements, Moves(Reserving, rows), Movement(Releasing, r.item, r.order));
  }

  lemma NewMoves(s: Store, rows: seq<Reservation>, j: nat)
    requires MovesOk(s) && j < |rows| && rows[j].state == Active && rows[j].order == |s.orders|
    requires forall i | 0 <= i < |rows| && i != j :: rows[i].item != rows[j].item
    ensures MovesFor(s.movements + Moves(Reserving, rows), rows[j])
  {
    var extra := Moves(Reserving, rows);
    CountOnce(extra, j);
    NoneYet(s, Reserving, rows[j].item);
    NoneYet(s, Releasing, rows[j].item);
    MovesOfOthers(s.movements, extra, Movement(Releasing, rows[j].item, rows[j].order));
  }

  lemma PlacedMoves(s: Store, k: nat, sub: Submission, e: Env, c: nat, o: P.Order)
    requires k < |s.claims| && c < |s.carts| && RowsOk(s) && MovesOk(s) && TakesFit(s, e.started, o.allocations)
    ensures MovesOk(Placed(s, k, sub, e, c, o))
  {
    var rows := NewReservations(o.allocations, |s.orders|, e.started + RESERVATION_TTL);
    var s' := Placed(s, k, sub, e, c, o);
    RowsMoves(s, rows, e.started, o.allocations);
    forall m | m in s'.movements ensures m.order < |s'.orders| {
      if m !in s.movements {
        assert m in Moves(Reserving, rows);
      }
    }
  }

  lemma RowsMoves(s: Store, rows: seq<Reservation>, started: int, allocations: seq<A.Allocation>)
    requires RowsOk(s) && MovesOk(s) && TakesFit(s, started, allocations)
    requires rows == NewReservations(allocations, |s.orders|, started + RESERVATION_TTL)
    ensures forall r | r in s.reservations + rows :: MovesFor(s.movements + Moves(Reserving, rows), r)
  {
    forall r | r in s.reservations + rows ensures MovesFor(s.movements + Moves(Reserving, rows), r) {
      if r in s.reservations {
        OldMoves(s, rows, r);
      } else {
        var j :| 0 <= j < |rows| && rows[j] == r;
        forall i | 0 <= i < |rows| && i != j ensures rows[i].item != rows[j].item {
          assert A.ItemOf(allocations[i]) != A.ItemOf(allocations[j]);
        }
        NewMoves(s, rows, j);
      }
    }
  }

  /** The state a new claim leaves for the rest of the transaction. */
  function WithClaim(s: Store, sub: Submission): Store {
    s.(claims := s.claims + [Claim(HashOf(sub), sub.customer, FingerprintOf(sub.input), None, None)])
  }

  lemma PlacedClaims(s: Store, sub: Submission, e: Env, c: nat, o: P.Order)
    requires ClaimsOk(s) && c < |s.carts| && TakesFit(s, e.started, o.allocations)
    requires forall x | x in s.claims :: x.hash != HashOf(sub)
    ensures ClaimsOk(Placed(WithClaim(s, sub), |s.claims|, sub, e, c, o))
  {
    var s' := Placed(WithClaim(s, sub), |s.claims|, sub, e, c, o);
    forall k: nat | k < |s'.claims| ensures ClaimOk(s', k) {
      if k < |s.claims| { assert ClaimOk(s, k); }
    }
  }

  lemma MatchingItems(items: seq<A.Request>, cart: Cart)
    requires Matches(items, cart)
    ensures multiset(items) == multiset(cart.items)
  {
    SortPermutes(items, A.ByVariant);
    SortPermutes(cart.items, A.ByVariant);
  }

  /** The active cart of the customer that was updated last, the smallest id first. */
  predicate Freshest(carts: seq<Cart>, customer: nat, c: nat) {
    && c < |carts| && carts[c].customer == customer && carts[c].status == CartActive
    && forall j | 0 <= j < |carts| && carts[j].customer == customer && carts[j].status == CartActive ::
      Fresher(carts, c, j)
  }

  predicate HasCart(carts: seq<Cart>, customer: nat) {
    exists j | 0 <= j < |carts| :: carts[j].customer == customer && carts[j].status == CartActive
  }

  lemma MatchesExactly(items: seq<A.Request>, cart: Cart)
    requires DistinctBy(items, A.VariantOf)
    ensures Matches(items, cart) <==> multiset(items) == multiset(cart.items)
  {
    SortPermutes(items, A.ByVariant);
    SortPermutes(cart.items, A.ByVariant);
    if multiset(items) == multiset(cart.items) {
      A.Orders();
      A.DistinctTies(items, A.VariantOf);
      SortOrderIndependent(items, cart.items, A.ByVariant);
    }
  }

  /** An order locks the customer's freshest active cart, and only if it has not expired and holds
      exactly the items asked for, in any order; each refusal says which of these fails. */
  lemma LockCartExactly(carts: seq<Cart>, customer: nat, requested: seq<A.Request>, now: int)
    requires DistinctBy(requested, A.VariantOf)
    ensures var r := LockCart(carts, customer, requested, now);
      && (forall c: nat :: r == Ok(c) <==>
            Freshest(carts, customer, c) && !ExpiredAt(carts[c], now) &&
              multiset(requested) == multiset(carts[c].items))
      && (r == Err(CartEmpty) <==> !HasCart(carts, customer))
      && (r == Err(CartHasExpired) <==> exists c: nat :: Freshest(carts, customer, c) && ExpiredAt(carts[c], now))
      && (r == Err(CartChanged) <==>
            exists c: nat ::
              Freshest(carts, customer, c) && !ExpiredAt(carts[c], now) &&
                multiset(requested) != multiset(carts[c].items))
  {
    var candidate := CandidateCart(carts, customer, |carts|);
    if candidate.Some? {
      var c := candidate.value;
      MatchesExactly(requested, carts[c]);
      assert Freshest(carts, customer, c) && HasCart(carts, customer);
      forall d: nat | Freshest(carts, customer, d) ensures d == c {
        assert Fresher(carts, c, d) && Fresher(carts, d, c);
      }
    }
  }

  lemma PlacedCarts(s: Store, k: nat, sub: Submission, e: Env, c: nat, o: P.Order)
    requires k < |s.claims| && c < |s.carts| && CartsOk(s) && TakesFit(s, e.started, o.allocations)
    requires s.carts[c].status == CartActive && s.carts[c].customer == sub.customer &&
      Matches(sub.input.items, s.carts[c])
    ensures CartsOk(Placed(s, k, sub, e, c, o))
  {
    var s' := Placed(s, k, sub, e, c, o);
    MatchingItems(sub.input.items, s.carts[c]);
    forall i | 0 <= i < |s.orders| ensures s.orders[i].cart != c {
      assert s.orders[i] in s.orders && CartOf(s, s.orders[i]);
    }
    forall x | x in s'.orders ensures CartOf(s', x) {
      if x in s.orders {
        assert CartOf(s, x);
        var i :| 0 <= i < |s.orders| && s.orders[i] == x;
      }
    }
  }

  lemma FoundClaim(s: Store, hash: KeyHash)
    requires ClaimsOk(s)
    ensures var k := FindClaim(s.claims, hash); k.Some? ==> ClaimOk(s, k.value)
  {
  }

  /** A transaction that succeeds found its claim new, its cart active and its stock free. */
  lemma CheckoutPlaces(s: Store, sub: Submission, e: Env) returns (c: nat, o: P.Order)
    requires Inv(s) && Possible(s, e) && Checkout(s, sub, e).1.Created?
    ensures FindClaim(s.claims, HashOf(sub)).None? && c < |s.carts|
    ensures CandidateCart(s.carts, sub.customer, |s.carts|) == Some(c) && Matches(sub.input.items, s.carts[c])
    ensures P.OrderSpec(View(s, e), RequestOf(sub.input)) == Ok(o) && TakesFit(s, e.started, o.allocations)
    ensures Checkout(s, sub, e) == (Placed(WithClaim(s, sub), |s.claims|, sub, e, c, o), Created(|s.orders|))
  {
    FoundClaim(s, HashOf(sub));
    c := CandidateCart(s.carts, sub.customer, |s.carts|).value;
    o := P.OrderSpec(View(s, e), RequestOf(sub.input)).value;
    OrderTakes(s, e, RequestOf(sub.input));
  }

  lemma PlacedInv(s: Store, sub: Submission, e: Env, c: nat, o: P.Order)
    requires Inv(s) && e.started <= s.clock && FindClaim(s.claims, HashOf(sub)).None? && c < |s.carts|
    requires s.carts[c].status == CartActive && s.carts[c].customer == sub.customer &&
      Matches(sub.input.items, s.carts[c])
    requires TakesFit(s, e.started, o.allocations)
    ensures Inv(Placed(WithClaim(s, sub), |s.claims|, sub, e, c, o))
  {
    var w := WithClaim(s, sub);
    assert TakesFit(w, e.started, o.allocations) by { assert forall i: nat ::
      Reserved(w, i, e.started) == Reserved(s, i, e.started); }
    assert StockOk(w) by { StockSame(s, w); }
    PlacedRows(w, |s.claims|, sub, e, c, o);
    PlacedStock(w, |s.claims|, sub, e, c, o);
    PlacedMoves(w, |s.claims|, sub, e, c, o);
    PlacedClaims(s, sub, e, c, o);
    PlacedCarts(w, |s.claims|, sub, e, c, o);
  }

  lemma StockSame(s: Store, s': Store)
    requires StockOk(s) && s'.items == s.items && s'.reservations == s.reservations && s'.orders == s.orders
    ensures StockOk(s')
  {
    forall item: nat, at: int | item < |s'.items| && Since(s', at)
      ensures Reserved(s', item, at) <= s'.items[item].onHand
    {
      assert Since(s, at) && Reserved(s', item, at) == Reserved(s, item, at);
    }
  }

  lemma ClaimsSame(s: Store, s': Store)
    requires ClaimsOk(s) && s'.claims == s.claims && s'.orders == s.orders
    ensures ClaimsOk(s')
  {
    forall k: nat | k < |s'.claims| ensures ClaimOk(s', k) {
      assert ClaimOk(s, k);
    }
  }

  lemma CheckoutInv(s: Store, sub: Submission, e: Env)
    requires Inv(s) && Possible(s, e)
    ensures Inv(Checkout(s, sub, e).0)
    ensures Checkout(s, sub, e).1.Created? || Checkout(s, sub, e).0 == s
  {
    if Checkout(s, sub, e).1.Created? {
      var c, o := CheckoutPlaces(s, sub, e);
      PlacedInv(s, sub, e, c, o);
    }
  }

  // The sweep.

  lemma ExpireRowMoves(s: Store, i: nat)
    requires RowsOk(s) && MovesOk(s) && i < |s.reservations| && s.reservations[i].state == Active
    ensures RowsOk(ExpireRow(s, i)) && MovesOk(ExpireRow(s, i))
  {
    var s' := ExpireRow(s, i);
    var r := s.reservations[i];
    assert r in s.reservations && RowOk(s, r) && MovesFor(s.movements, r);
    forall x | x in s'.reservations ensures RowOk(s', x) && MovesFor(s'.movements, x) {
      var j :| 0 <= j < |s'.reservations| && s'.reservations[j] == x;
      assert s.reservations[j] in s.reservations && MovesFor(s.movements, s.reservations[j]);
    }
  }

  lemma ExpireRowInv(s: Store, i: nat)
    requires Inv(s)
    ensures Inv(ExpireRow(s, i))
  {
    if i < |s.reservations| && s.reservations[i].state == Active {
      var s' := ExpireRow(s, i);
      ExpireRowMoves(s, i);
      ClaimsSame(s, s');
      assert s.reservations[i] in s.reservations;
      forall item: nat, at: int | item < |s.items| && Since(s', at)
        ensures Reserved(s', item, at) <= s.items[item].onHand
      {
        assert Since(s, at);
        SumUpdate(s.reservations, i, s.reservations[i].(state := Expired), Holding(item, at));
      }
      assert forall o | o in s'.orders :: CartOf(s, o);
    }
  }

  lemma {:induction false} ExpireRowsInv(s: Store, rows: seq<nat>)
    requires Inv(s)
    ensures Inv(ExpireRows(s, rows))
    decreases |rows|
  {
    if rows != [] {
      ExpireRowInv(s, rows[0]);
      ExpireRowsInv(ExpireRow(s, rows[0]), rows[1..]);
    }
  }

  // Carts.

  lemma CartChangeInv(s: Store, s': Store)
    requires Inv(s) && s' == s.(carts := s'.carts) && |s'.carts| >= |s.carts|
    requires forall c | 0 <= c < |s.carts| && s.carts[c].status == CartConverted :: s'.carts[c] == s.carts[c]
    ensures Inv(s')
  {
    forall o | o in s'.orders ensures CartOf(s', o) {
      assert CartOf(s, o);
    }
    ClaimsSame(s, s');
    StockSame(s, s');
    assert forall r | r in s'.reservations :: RowOk(s, r);
  }

  lemma TickInv(s: Store, elapsed: nat)
    requires Inv(s)
    ensures Inv(s.(clock := s.clock + elapsed))
  {
    var s' := s.(clock := s.clock + elapsed);
    ClaimsSame(s, s');
    StockSame(s, s');
    assert forall r | r in s'.reservations :: RowOk(s, r);
    assert forall o | o in s'.orders :: CartOf(s, o);
  }

  lemma NextInv(s: Store, step: Step)
    requires Inv(s)
    ensures Inv(Next(s, step))
  {
    match step
    case Tick(elapsed) => TickInv(s, elapsed);
    case OpenCartStep(customer, items, expiresAt) => CartChangeInv(s, Next(s, step));
    case EditCartStep(cart, items, expiresAt) => CartChangeInv(s, Next(s, step));
    case ExpireCartStep(cart) => CartChangeInv(s, Next(s, step));
    case CheckoutStep(submission, env) => if Possible(s, env) { CheckoutInv(s, submission, env); }
    case SweepStep(cutoff, batchSize) => ExpireRowsInv(s, Batch(s.reservations, cutoff, batchSize));
  }

  lemma {:induction false} RunInv(s: Store, steps: seq<Step>)
    requires Inv(s)
    ensures Inv(Run(s, steps))
    decreases |steps|
  {
    if steps != [] {
      NextInv(s, steps[0]);
      RunInv(Next(s, steps[0]), steps[1..]);
    }
  }

  lemma StartInv(items: seq<StockItem>)
    requires forall i | i in items :: 0 <= i.onHand <= Money.MAX_SAFE
    ensures Inv(Start(items))
  {
  }
}
