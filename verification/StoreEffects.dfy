/** What a sweep and an order transaction write, column by column, in every reachable state. */
module StoreEffects {
  import opened Wrappers
  import opened Sorting
  import opened StoreTypes
  import opened StoreProof
  import opened StoreTheorems
  import A = Allocation
  import P = CheckoutPricing
  import Money

  // The sweep.

  /** The reservation is still active although its time was up at the cutoff. */
  predicate Overdue(r: Reservation, cutoff: int) { r.state == Active && r.expiresAt <= cutoff }

  function ExpiredRow(r: Reservation): Reservation {
    Reservation(r.item, r.order, r.quantity, Expired, r.expiresAt)
  }

  /** The rows a sweep has changed. */
  function Released(s: Store, t: Store): set<nat> {
    set i: nat | i < |s.reservations| && i < |t.reservations| && s.reservations[i] != t.reservations[i]
  }

  lemma OverdueIs(r: Reservation, cutoff: int)
    ensures Due(r, cutoff) <==> Overdue(r, cutoff)
  {
  }

  lemma {:induction false} SameSize(ids: seq<nat>, members: set<nat>)
    requires DistinctBy(ids, RowId) && forall i :: i in members <==> i in ids
    ensures |members| == |ids|
  {
    if ids == [] {
      assert members == {};
    } else {
      var n := |ids| - 1;
      forall k | 0 <= k < n ensures ids[k] != ids[n] { assert RowId(ids[k]) != RowId(ids[n]); }
      assert ids == ids[..n] + [ids[n]];
      SameSize(ids[..n], members - {ids[n]});
    }
  }

  lemma SweptRows(s: Store, cutoff: int, batchSize: nat)
    requires Reachable(s) && cutoff <= s.clock + 5_000
    ensures var t, batch := Sweep(s, cutoff, batchSize), Batch(s.reservations, cutoff, batchSize);
      && |t.reservations| == |s.reservations| && |t.movements| == |s.movements| + |batch|
      && (forall i: nat | i < |s.reservations| ::
            t.reservations[i] == if i in batch then ExpiredRow(s.reservations[i]) else s.reservations[i])
      && (forall i | i in batch :: i < |s.reservations| && Overdue(s.reservations[i], cutoff))
      && (forall i :: i in Released(s, t) <==> i in batch) && |Released(s, t)| == |batch| <= batchSize
  {
    SweepExpiresBatch(s, cutoff, batchSize);
    BatchMembers(s.reservations, cutoff, batchSize);
    var t, batch := Sweep(s, cutoff, batchSize), Batch(s.reservations, cutoff, batchSize);
    forall i | i in batch ensures i < |s.reservations| && Overdue(s.reservations[i], cutoff) {
      OverdueIs(s.reservations[i], cutoff);
    }
    SameSize(batch, Released(s, t));
  }

  lemma {:induction false} ExpireRowsTables(s: Store, rows: seq<nat>)
    ensures var t := ExpireRows(s, rows);
      t == s.(reservations := t.reservations, movements := t.movements) && s.movements <= t.movements
    decreases |rows|
  {
    if rows != [] { ExpireRowsTables(ExpireRow(s, rows[0]), rows[1..]); }
  }

  /** A sweep releases only reservations whose time is up, at most a batch, each with one movement;
      short of a batch it leaves none. A cutoff too far ahead of the clock releases nothing. */
  lemma SweepWrites(s: Store, cutoff: int, batchSize: nat)
    requires Reachable(s)
    ensures var t := Sweep(s, cutoff, batchSize);
      && t == s.(reservations := t.reservations, movements := t.movements)
      && |t.reservations| == |s.reservations| && s.movements <= t.movements
      && (forall i | i in Released(s, t) ::
            Overdue(s.reservations[i], cutoff) && t.reservations[i] == ExpiredRow(s.reservations[i]))
      && |t.movements| == |s.movements| + |Released(s, t)| && |Released(s, t)| <= batchSize
      && (if cutoff > s.clock + 5_000 then t == s
          else |Released(s, t)| < batchSize ==>
            forall i: nat | i < |t.reservations| :: !Overdue(t.reservations[i], cutoff))
  {
    var t := Sweep(s, cutoff, batchSize);
    if cutoff > s.clock + 5_000 {
      assert Released(s, t) == {};
    } else {
      SweptRows(s, cutoff, batchSize);
      ExpireRowsTables(s, Batch(s.reservations, cutoff, batchSize));
      BatchMembers(s.reservations, cutoff, batchSize);
      forall i: nat | i < |t.reservations| && Overdue(t.reservations[i], cutoff)
        ensures |Released(s, t)| >= batchSize
      {
        OverdueIs(s.reservations[i], cutoff);
      }
    }
  }

  /** Reservations are released by inventory item, then by id. */
  lemma SweepInOrder(s: Store, cutoff: int, batchSize: nat, i: nat, j: nat)
    requires Reachable(s) && cutoff <= s.clock + 5_000
    requires i in Released(s, Sweep(s, cutoff, batchSize)) && j < |s.reservations|
    requires Overdue(s.reservations[j], cutoff) && j !in Released(s, Sweep(s, cutoff, batchSize))
    ensures s.reservations[i].item < s.reservations[j].item ||
      (s.reservations[i].item == s.reservations[j].item && i < j)
  {
    SweptRows(s, cutoff, batchSize);
    BatchMembers(s.reservations, cutoff, batchSize);
    OverdueIs(s.reservations[j], cutoff);
    assert SweepOrder(s.reservations)(i, j) && i != j;
  }

  // No reservation ends before its time.

  predicate EndedInTime(s: Store) {
    forall i | 0 <= i < |s.reservations| && s.reservations[i].state == Expired ::
      s.reservations[i].expiresAt <= s.clock + 5_000
  }

  lemma SweepInTime(s: Store, cutoff: int, batchSize: nat)
    requires Reachable(s) && EndedInTime(s)
    ensures EndedInTime(Sweep(s, cutoff, batchSize))
  {
    var t := Sweep(s, cutoff, batchSize);
    SweepWrites(s, cutoff, batchSize);
    forall i | 0 <= i < |t.reservations| && t.reservations[i].state == Expired
      ensures t.reservations[i].expiresAt <= t.clock + 5_000
    {
      if i in Released(s, t) {
        assert Overdue(s.reservations[i], cutoff);
      } else {
        assert t.reservations[i] == s.reservations[i];
      }
    }
  }

  lemma CheckoutInTime(s: Store, sub: Submission, e: Env)
    requires Inv(s) && Possible(s, e) && EndedInTime(s)
    ensures EndedInTime(Checkout(s, sub, e).0)
  {
    CheckoutInv(s, sub, e);
    if Checkout(s, sub, e).1.Created? { var order, rows, o := CreatedRows(s, sub, e); CheckoutClock(s, sub, e); }
  }

  lemma CheckoutClock(s: Store, sub: Submission, e: Env)
    requires Inv(s) && Possible(s, e)
    ensures Checkout(s, sub, e).0.clock == s.clock
  {
    CheckoutInv(s, sub, e);
    if Checkout(s, sub, e).1.Created? { var c, o := CheckoutPlaces(s, sub, e); }
  }

  lemma NextInTime(s: Store, step: Step)
    requires Reachable(s) && EndedInTime(s)
    ensures EndedInTime(Next(s, step))
  {
    ReachableInv(s);
    match step
    case SweepStep(cutoff, batchSize) => SweepInTime(s, cutoff, batchSize);
    case CheckoutStep(sub, e) => if Possible(s, e) { CheckoutInTime(s, sub, e); }
    case _ =>
  }

  lemma {:induction false} RunSplit(s: Store, steps: seq<Step>)
    requires steps != []
    ensures Run(s, steps) == Next(Run(s, steps[..|steps| - 1]), steps[|steps| - 1])
    decreases |steps|
  {
    if |steps| == 1 {
      assert steps[1..] == [] && steps[..0] == [];
    } else {
      RunSplit(Next(s, steps[0]), steps[1..]);
      assert steps[..|steps| - 1][1..] == steps[1..][..|steps| - 2];
    }
  }

  lemma {:induction false} RunInTime(items: seq<StockItem>, steps: seq<Step>)
    requires forall i | i in items :: 0 <= i.onHand <= Money.MAX_SAFE
    ensures Reachable(Run(Start(items), steps)) && EndedInTime(Run(Start(items), steps))
    decreases |steps|
  {
    if steps != [] {
      RunInTime(items, steps[..|steps| - 1]);
      RunSplit(Start(items), steps);
      NextInTime(Run(Start(items), steps[..|steps| - 1]), steps[|steps| - 1]);
    }
  }

  /** A reservation ends only when its time is up, give or take what a worker's clock may be ahead. */
  lemma ReleasedInTime(s: Store, i: nat)
    requires Reachable(s) && i < |s.reservations| && s.reservations[i].state == Expired
    ensures s.reservations[i].expiresAt <= s.clock + 5_000
  {
    var items: seq<StockItem>, steps: seq<Step> :|
      (forall i | i in items :: 0 <= i.onHand <= Money.MAX_SAFE) && s == Run(Start(items), steps);
    RunInTime(items, steps);
  }

  // The order transaction.

  /** What an order sees of the tables: the catalogue at its start, with every stock row of each
      variant and what is reserved of it. */
  predicate Shows(s: Store, e: Env, v: P.Snapshot) {
    && v == e.catalog.(now := e.started, courierNow := e.started, variants := v.variants)
    && |v.variants| == |e.catalog.variants|
    && forall k | 0 <= k < |v.variants| :: ShowsStock(s, e, e.catalog.variants[k], v.variants[k])
  }

  predicate ShowsStock(s: Store, e: Env, listed: P.Variant, v: P.Variant) {
    && v == listed.(inventory := v.inventory)
    && (forall i: nat | i < |s.items| && s.items[i].variant == listed.id :: HasStockRow(v.inventory, i))
    && (forall row | row in v.inventory ::
          && 0 <= row.id < |s.items| && s.items[row.id].variant == listed.id
          && row.onHand == s.items[row.id].onHand
          && (row.eligible <==> row.id in e.eligible && s.items[row.id].onHand > 0)
          && P.Reserved(row.reservations, e.started) == Reserved(s, row.id, e.started))
    && DistinctBy(v.inventory, InventoryId)
  }

  predicate HasStockRow(inventory: seq<P.Inventory>, i: nat) { exists row | row in inventory :: row.id == i }

  lemma ShowsVariant(s: Store, e: Env, listed: P.Variant)
    requires RowsOk(s)
    ensures ShowsStock(s, e, listed, WithStock(s.items, s.reservations, e.eligible, listed))
  {
    var v := WithStock(s.items, s.reservations, e.eligible, listed);
    InventoryView(s, e.eligible, listed.id, |s.items|, e.started);
    forall i: nat | i < |s.items| && s.items[i].variant == listed.id ensures HasStockRow(v.inventory, i) {
      InventoryHas(s, e.eligible, listed.id, |s.items|, i);
    }
    forall row | row in v.inventory
      ensures 0 <= row.id < |s.items| && (row.eligible <==> row.id in e.eligible && s.items[row.id].onHand > 0)
    {
      assert RowView(s, row, listed.id, e.started);
      RowEligible(s, e.eligible, listed.id, |s.items|, row);
    }
  }

  lemma {:induction false} RowEligible(s: Store, eligible: set<nat>, variant: int, n: nat, row: P.Inventory)
    requires n <= |s.items| && row in InventoryFor(s.items, s.reservations, eligible, variant, n)
    ensures 0 <= row.id < n && (row.eligible <==> row.id in eligible && s.items[row.id].onHand > 0)
  {
    if n > 0 && row in InventoryFor(s.items, s.reservations, eligible, variant, n - 1) {
      RowEligible(s, eligible, variant, n - 1, row);
    }
  }

  lemma ViewShows(s: Store, e: Env)
    requires RowsOk(s)
    ensures Shows(s, e, View(s, e))
  {
    forall k | 0 <= k < |e.catalog.variants|
      ensures ShowsStock(s, e, e.catalog.variants[k], View(s, e).variants[k])
    {
      ShowsVariant(s, e, e.catalog.variants[k]);
    }
  }

  /** The customer's freshest active cart, unexpired and with these items. */
  predicate Convertible(carts: seq<Cart>, c: nat, customer: nat, items: seq<A.Request>, now: int) {
    && c < |carts| && carts[c].customer == customer && carts[c].status == CartActive
    && (carts[c].expiresAt.Some? ==> now < carts[c].expiresAt.value)
    && multiset(carts[c].items) == multiset(items)
    && forall j | 0 <= j < |carts| && carts[j].customer == customer && carts[j].status == CartActive ::
         carts[j].updatedAt < carts[c].updatedAt || (carts[j].updatedAt == carts[c].updatedAt && c <= j)
  }

  /** One active reservation of half an hour for each allocation, and one reserving movement. */
  predicate ReservedFor(rows: seq<Reservation>, moves: seq<Movement>, allocations: seq<A.Allocation>, order: nat,
    started: int) {
    && |rows| == |allocations| == |moves|
    && forall k | 0 <= k < |rows| :: allocations[k].item >= 0 &&
         rows[k] == Reservation(allocations[k].item, order, allocations[k].quantity, Active, started + 1_800_000) &&
         moves[k] == Movement(Reserving, allocations[k].item, order)
  }

  /** The request as it is priced: express only if it asks for it. */
  function Priced(i: Input): P.Request { P.Request(i.items, i.locality, i.pickup, i.express == Some(true)) }

  /** An order that is created converts its cart, settles its claim, reserves what was allocated and
      stores the quote of its request. */
  lemma CheckoutWrites(s: Store, sub: Submission, e: Env) returns (c: nat, o: P.Order)
    requires Reachable(s) && Possible(s, e) && Checkout(s, sub, e).1.Created?
    ensures Convertible(s.carts, c, sub.customer, sub.input.items, e.started)
    ensures P.OrderSpec(View(s, e), Priced(sub.input)) == Ok(o)
    ensures
      var t, n := Checkout(s, sub, e).0, |s.orders|;
      var cart := s.carts[c];
      && Checkout(s, sub, e).1 == Created(n)
      && t == s.(orders := t.orders, reservations := t.reservations, movements := t.movements, claims := t.claims,
           carts := t.carts)
      && t.orders == s.orders + [Order(sub.customer, c, sub.input.items, o.quote, e.started)]
      && t.carts == s.carts[c := Cart(cart.customer, CartConverted, cart.version + 1, cart.updatedAt, cart.expiresAt,
           cart.items)]
      && t.claims == s.claims + [Claim(KeyHash(sub.customer, sub.key), sub.customer, FingerprintOf(sub.input), Some(n),
           Some(e.started))]
      && s.reservations <= t.reservations && s.movements <= t.movements
      && ReservedFor(t.reservations[|s.reservations|..], t.movements[|s.movements|..], o.allocations, n, e.started)
  {
    ReachableInv(s);
    c, o := CheckoutPlaces(s, sub, e);
    MatchingItems(sub.input.items, s.carts[c]);
    NotExpired(s, sub, e, c);
    PlacedWrites(s, sub, e, c, o);
  }

  lemma NotExpired(s: Store, sub: Submission, e: Env, c: nat)
    requires Inv(s) && Possible(s, e) && Checkout(s, sub, e).1.Created?
    requires CandidateCart(s.carts, sub.customer, |s.carts|) == Some(c)
    ensures s.carts[c].expiresAt.Some? ==> e.started < s.carts[c].expiresAt.value
  {
    FoundClaim(s, HashOf(sub));
  }

  lemma PlacedWrites(s: Store, sub: Submission, e: Env, c: nat, o: P.Order)
    requires ClaimsOk(s) && c < |s.carts| && TakesFit(s, e.started, o.allocations)
    ensures
      var t, n := Placed(WithClaim(s, sub), |s.claims|, sub, e, c, o), |s.orders|;
      var cart := s.carts[c];
      && t == s.(orders := t.orders, reservations := t.reservations, movements := t.movements, claims := t.claims,
           carts := t.carts)
      && t.orders == s.orders + [Order(sub.customer, c, sub.input.items, o.quote, e.started)]
      && t.carts == s.carts[c := Cart(cart.customer, CartConverted, cart.version + 1, cart.updatedAt, cart.expiresAt,
           cart.items)]
      && t.claims == s.claims + [Claim(KeyHash(sub.customer, sub.key), sub.customer, FingerprintOf(sub.input), Some(n),
           Some(e.started))]
      && s.reservations <= t.reservations && s.movements <= t.movements
      && ReservedFor(t.reservations[|s.reservations|..], t.movements[|s.movements|..], o.allocations, n, e.started)
  {
    var t := Placed(WithClaim(s, sub), |s.claims|, sub, e, c, o);
    var rows := NewReservations(o.allocations, |s.orders|, e.started + RESERVATION_TTL);
    assert t.reservations[|s.reservations|..] == rows && t.movements[|s.movements|..] == Moves(Reserving, rows);
    assert forall k | 0 <= k < |o.allocations| :: o.allocations[k] in o.allocations;
  }

  // What an order transaction answers.

  /** Claim k was made under the key of this submission. */
  predicate UsedBy(s: Store, sub: Submission, k: nat) {
    k < |s.claims| && s.claims[k].hash == KeyHash(sub.customer, sub.key)
  }

  /** The customer's active cart that was updated last. */
  predicate Latest(carts: seq<Cart>, c: nat, customer: nat) {
    && c < |carts| && carts[c].customer == customer && carts[c].status == CartActive
    && forall j | 0 <= j < |carts| && carts[j].customer == customer && carts[j].status == CartActive ::
         carts[j].updatedAt < carts[c].updatedAt || (carts[j].updatedAt == carts[c].updatedAt && c <= j)
  }

  /** What each answer says of the state it was given in. */
  ghost predicate Tells(s: Store, sub: Submission, e: Env, answer: Outcome) {
    match answer
    case Created(n) => n == |s.orders|
    case Replayed(k) => UsedBy(s, sub, k) && s.claims[k].fingerprint == FingerprintOf(sub.input)
    case Refused(IdempotencyConflict) =>
      exists k: nat :: UsedBy(s, sub, k) && s.claims[k].fingerprint != FingerprintOf(sub.input)
    case Refused(CheckoutRefused) => !e.admits
    case Refused(CartEmpty) =>
      forall c | 0 <= c < |s.carts| && s.carts[c].customer == sub.customer :: s.carts[c].status != CartActive
    case Refused(CartHasExpired) =>
      exists c: nat :: Latest(s.carts, c, sub.customer) &&
        s.carts[c].expiresAt.Some? && s.carts[c].expiresAt.value <= e.started
    case Refused(CartChanged) =>
      exists c: nat :: Latest(s.carts, c, sub.customer) && multiset(s.carts[c].items) != multiset(sub.input.items)
    case Refused(NotPriced(error)) => P.OrderSpec(View(s, e), Priced(sub.input)) == Err(error)
    case Refused(Incomplete) => !e.completes
    case Refused(_) => false
  }

  lemma UsedIs(s: Store, sub: Submission)
    requires ClaimsOk(s)
    ensures FindClaim(s.claims, HashOf(sub)).None? <==> forall k: nat :: !UsedBy(s, sub, k)
    ensures forall k: nat | UsedBy(s, sub, k) :: FindClaim(s.claims, HashOf(sub)) == Some(k)
  {
    forall k: nat | UsedBy(s, sub, k) ensures FindClaim(s.claims, HashOf(sub)) == Some(k) { FindSame(s.claims, k); }
    var f := FindClaim(s.claims, HashOf(sub));
    if f.Some? { assert UsedBy(s, sub, f.value); }
  }

  lemma LockTells(s: Store, sub: Submission, e: Env)
    requires DistinctBy(sub.input.items, A.VariantOf)
    ensures var r := LockCart(s.carts, sub.customer, sub.input.items, e.started);
      && (r.Err? ==> Tells(s, sub, e, Refused(r.error)))
      && (r.Ok? ==> Convertible(s.carts, r.value, sub.customer, sub.input.items, e.started))
      && (forall c: nat | Convertible(s.carts, c, sub.customer, sub.input.items, e.started) :: r == Ok(c))
  {
    LockCartExactly(s.carts, sub.customer, sub.input.items, e.started);
    var r := LockCart(s.carts, sub.customer, sub.input.items, e.started);
    if r == Err(CartHasExpired) {
      var c: nat :| Freshest(s.carts, sub.customer, c) && ExpiredAt(s.carts[c], e.started);
      assert Latest(s.carts, c, sub.customer);
    } else if r == Err(CartChanged) {
      var c: nat :| Freshest(s.carts, sub.customer, c) && !ExpiredAt(s.carts[c], e.started) &&
        multiset(sub.input.items) != multiset(s.carts[c].items);
      assert Latest(s.carts, c, sub.customer);
    }
    forall c: nat | Convertible(s.carts, c, sub.customer, sub.input.items, e.started) ensures r == Ok(c) {
      assert Freshest(s.carts, sub.customer, c);
    }
  }

  lemma PlacingAnswers(s: Store, sub: Submission, e: Env)
    requires Inv(s) && Possible(s, e) && P.RequestShape(RequestOf(sub.input)).None?
    ensures var r := PlaceOrder(WithClaim(s, sub), |s.claims|, sub, e);
      && (r.Err? ==> Tells(s, sub, e, Refused(r.error)))
      && (r.Ok? <==>
            && e.admits && e.completes && P.OrderSpec(View(s, e), Priced(sub.input)).Ok?
            && exists c: nat :: Convertible(s.carts, c, sub.customer, sub.input.items, e.started))
  {
    LockTells(s, sub, e);
    assert View(WithClaim(s, sub), e) == View(s, e) && RequestOf(sub.input) == Priced(sub.input);
    if P.OrderSpec(View(s, e), Priced(sub.input)).Ok? { OrderTakes(s, e, Priced(sub.input)); }
  }

  /** Every answer tells the truth about the tables, the request and the environment. */
  lemma CheckoutTells(s: Store, sub: Submission, e: Env)
    requires Reachable(s) && Possible(s, e)
    ensures Tells(s, sub, e, Checkout(s, sub, e).1)
    ensures Checkout(s, sub, e).1.Created? || Checkout(s, sub, e).0 == s
  {
    ReachableInv(s);
    CheckoutInv(s, sub, e);
    FoundClaim(s, HashOf(sub));
    UsedIs(s, sub);
    var k := FindClaim(s.claims, HashOf(sub));
    if k.Some? { assert UsedBy(s, sub, k.value); }
    if P.RequestShape(RequestOf(sub.input)).None? { PlacingAnswers(s, sub, e); }
  }

  /** An order is created exactly under a new key, when the checks outside the tables pass, the
      customer's latest cart is unexpired and holds these items, and the request can be priced. */
  lemma CheckoutSucceeds(s: Store, sub: Submission, e: Env)
    requires Reachable(s) && Possible(s, e)
    ensures Checkout(s, sub, e).1.Created? <==>
      && (forall k: nat :: !UsedBy(s, sub, k))
      && e.admits && e.completes && P.OrderSpec(View(s, e), Priced(sub.input)).Ok?
      && exists c: nat :: Convertible(s.carts, c, sub.customer, sub.input.items, e.started)
  {
    ReachableInv(s);
    FoundClaim(s, HashOf(sub));
    UsedIs(s, sub);
    assert RequestOf(sub.input) == Priced(sub.input);
    if P.RequestShape(RequestOf(sub.input)).None? { PlacingAnswers(s, sub, e); }
  }
}
