/** What the checkout promises over every run: no overselling, one order a key, a cart and a
    reservation, and sweeps that release each reservation once. */
module StoreTheorems {
  import opened Wrappers
  import opened Sums
  import opened Sorting
  import opened StoreTypes
  import opened StoreProof
  import A = Allocation
  import P = CheckoutPricing
  import Q = CheckoutProof
  import Money

  /** Reached from empty tables over some stock. */
  ghost predicate Reachable(s: Store) {
    exists items: seq<StockItem>, steps: seq<Step> ::
      (forall i | i in items :: 0 <= i.onHand <= Money.MAX_SAFE) && s == Run(Start(items), steps)
  }

  lemma ReachableInv(s: Store)
    requires Reachable(s)
    ensures Inv(s)
  {
    var items: seq<StockItem>, steps: seq<Step> :|
      (forall i | i in items :: 0 <= i.onHand <= Money.MAX_SAFE) && s == Run(Start(items), steps);
    StartInv(items);
    RunInv(Start(items), steps);
  }

  // Stock.

  /** Unexpired active reservations never exceed what is on hand, however checkouts and sweeps
      interleave and however late a transaction commits after reading its clock. */
  lemma NoOverselling(s: Store, i: nat, at: int)
    requires Reachable(s) && i < |s.items| && s.clock <= at
    ensures 0 <= Reserved(s, i, at) <= s.items[i].onHand
  {
    ReachableInv(s);
    ReservedNonNegative(s, i, at);
    assert Since(s, at);
  }

  lemma {:induction false} LinesNeverBreach(fetched: seq<P.Variant>, age: int, items: seq<A.Request>, p: P.Priced)
    ensures P.OrderLines(fetched, age, items, p) != Err(P.InventoryInvariantBreach)
    decreases |items|
  {
    if items != [] && P.Find(fetched, items[0].variant).Some? {
      var next := P.PriceLine(P.Find(fetched, items[0].variant).value, items[0].quantity, p);
      if next.Ok? { LinesNeverBreach(fetched, age, items[1..], next.value); }
    }
  }

  lemma OnlyStockBreaches(v: P.Snapshot, r: P.Request)
    requires P.OrderSpec(v, r) == Err(P.InventoryInvariantBreach)
    ensures !Q.SoundVariants(P.Fetch(v.variants, r.items), v.now)
  {
    var fetched := P.Fetch(v.variants, r.items);
    LinesNeverBreach(fetched, v.minimumAge.value, r.items, P.NothingPriced);
    Q.BucketsIff(fetched, v.now, 0);
    var p := P.OrderLines(fetched, v.minimumAge.value, r.items, P.NothingPriced);
    if p.Ok? { EndsNeverBreach(v, r, p.value); }
  }

  lemma CourierNeverBreaches(v: P.Snapshot, localityId: int, t: P.Totals, express: bool)
    ensures P.OrderCourier(v, localityId, t, express) != Err(P.InventoryInvariantBreach)
  {
  }

  lemma EndsNeverBreach(v: P.Snapshot, r: P.Request, p: P.Priced)
    requires r.locality.Some? || r.pickup.Some?
    ensures P.OrderFrom(v, r, p) != Err(P.InventoryInvariantBreach)
  {
    if r.pickup.None? { CourierNeverBreaches(v, r.locality.value, p.totals, r.express); }
  }

  /** Some eligible row of a fetched variant held more at that time than there was. */
  ghost predicate OverReserved(s: Store, e: Env, items: seq<A.Request>) {
    exists v, i: nat ::
      v in P.Fetch(View(s, e).variants, items) && i < |s.items| && i in e.eligible && s.items[i].onHand > 0 &&
      s.items[i].variant == v.id && Reserved(s, i, e.started) > s.items[i].onHand
  }

  lemma ViewSound(s: Store, e: Env, items: seq<A.Request>)
    requires Inv(s) && Possible(s, e) && Since(s, e.started)
    ensures Q.SoundVariants(P.Fetch(View(s, e).variants, items), e.started)
  {
    ViewVariants(s, e);
    FetchView(s, e, View(s, e).variants, items);
    forall x | x in P.Fetch(View(s, e).variants, items) ensures Q.SoundVariant(x, e.started) {
      VariantSound(s, e.eligible, x, e.started);
    }
  }

  lemma PlacingNeverBreaches(s: Store, k: nat, sub: Submission, e: Env)
    requires k < |s.claims| && P.OrderSpec(View(s, e), RequestOf(sub.input)) != Err(P.InventoryInvariantBreach)
    ensures PlaceOrder(s, k, sub, e) != Err(NotPriced(P.InventoryInvariantBreach))
  {
  }

  /** The breach error needs a transaction that started before the latest order and still counts
      a reservation which has since expired: in start order it cannot happen. */
  lemma BreachIsDead(s: Store, sub: Submission, e: Env)
    requires Reachable(s) && Possible(s, e) && Since(s, e.started)
    ensures Checkout(s, sub, e).1 != Refused(NotPriced(P.InventoryInvariantBreach))
  {
    ReachableInv(s);
    var r := RequestOf(sub.input);
    ViewSound(s, e, r.items);
    if P.OrderSpec(View(s, e), r) == Err(P.InventoryInvariantBreach) { OnlyStockBreaches(View(s, e), r); }
    PlacingNeverBreaches(WithClaim(s, sub), |s.claims|, sub, e);
    FoundClaim(s, HashOf(sub));
  }

  lemma InventoryHas(s: Store, eligible: set<nat>, variant: int, n: nat, i: nat)
    requires n <= |s.items| && i < n && s.items[i].variant == variant
    ensures InventoryRow(s.items, s.reservations, eligible, i) in
      InventoryFor(s.items, s.reservations, eligible, variant, n)
  {
    if i < n - 1 { InventoryHas(s, eligible, variant, n - 1, i); }
  }

  lemma OverReservedUnsound(s: Store, e: Env, items: seq<A.Request>)
    requires RowsOk(s) && Possible(s, e) && OverReserved(s, e, items)
    ensures !Q.SoundVariants(P.Fetch(View(s, e).variants, items), e.started)
  {
    var fetched := P.Fetch(View(s, e).variants, items);
    ViewVariants(s, e);
    FetchView(s, e, View(s, e).variants, items);
    var v, i: nat :| v in fetched && i < |s.items| && i in e.eligible && s.items[i].onHand > 0 &&
      s.items[i].variant == v.id && Reserved(s, i, e.started) > s.items[i].onHand;
    InventoryHas(s, e.eligible, v.id, |s.items|, i);
    ReservedView(s.reservations, i, e.started);
    assert !Q.SoundStock(InventoryRow(s.items, s.reservations, e.eligible, i), e.started);
  }

  lemma OtherwiseSound(s: Store, e: Env, items: seq<A.Request>)
    requires Inv(s) && Possible(s, e) && !OverReserved(s, e, items)
    ensures Q.SoundVariants(P.Fetch(View(s, e).variants, items), e.started)
  {
    var fetched := P.Fetch(View(s, e).variants, items);
    ViewVariants(s, e);
    FetchView(s, e, View(s, e).variants, items);
    forall v | v in fetched ensures Q.SoundVariant(v, e.started) {
      InventoryView(s, e.eligible, v.id, |s.items|, e.started);
      forall i | i in v.inventory && i.eligible ensures Q.SoundStock(i, e.started) {
        assert RowView(s, i, v.id, e.started);
        ReservedNonNegative(s, i.id, e.started);
        EligibleRow(s, e.eligible, v.id, |s.items|, i);
        assert s.items[i.id] in s.items;
      }
    }
  }

  /** Whatever the start time, the order path finds its stock unsound exactly when some row it
      fetched was over-reserved at that time. */
  lemma BreachExactly(s: Store, e: Env, items: seq<A.Request>)
    requires Reachable(s) && Possible(s, e)
    ensures P.Buckets(P.Fetch(View(s, e).variants, items), e.started).Err? <==> OverReserved(s, e, items)
  {
    ReachableInv(s);
    Q.BucketsIff(P.Fetch(View(s, e).variants, items), e.started, 0);
    if OverReserved(s, e, items) { OverReservedUnsound(s, e, items); } else { OtherwiseSound(s, e, items); }
  }

  /** The pricing path reports a breach exactly when everything before it passes and the buckets
      cannot be built. */
  lemma SpecBreaches(v: P.Snapshot, r: P.Request)
    ensures P.OrderSpec(v, r) == Err(P.InventoryInvariantBreach) <==>
      && P.RequestShape(r).None? && v.checkoutAllowed && v.minimumAge.Some?
      && |P.Fetch(v.variants, r.items)| == |r.items|
      && P.OrderLines(P.Fetch(v.variants, r.items), v.minimumAge.value, r.items, P.NothingPriced).Ok?
      && P.Buckets(P.Fetch(v.variants, r.items), v.now).Err?
  {
    if P.RequestShape(r).None? && v.minimumAge.Some? {
      var fetched := P.Fetch(v.variants, r.items);
      LinesNeverBreach(fetched, v.minimumAge.value, r.items, P.NothingPriced);
      Q.BucketsError(fetched, v.now);
      var p := P.OrderLines(fetched, v.minimumAge.value, r.items, P.NothingPriced);
      if p.Ok? { EndsNeverBreach(v, r, p.value); }
    }
  }

  /** The cart an order would convert: the freshest active one, unexpired and with these rows. */
  predicate CartReady(s: Store, sub: Submission, at: int) {
    var c := CandidateCart(s.carts, sub.customer, |s.carts|);
    && c.Some? && Matches(sub.input.items, s.carts[c.value])
    && (s.carts[c.value].expiresAt.Some? ==> at < s.carts[c.value].expiresAt.value)
  }

  /** The request reaches the stock check: nothing before it refuses, and its lines can be priced. */
  predicate ReachesStock(s: Store, sub: Submission, e: Env) {
    var items := sub.input.items;
    && P.RequestShape(RequestOf(sub.input)).None? && FindClaim(s.claims, HashOf(sub)).None?
    && e.admits && CartReady(s, sub, e.started)
    && e.catalog.checkoutAllowed && e.catalog.minimumAge.Some?
    && |P.Fetch(View(s, e).variants, items)| == |items|
    && P.OrderLines(P.Fetch(View(s, e).variants, items), e.catalog.minimumAge.value, items, P.NothingPriced).Ok?
  }

  lemma PlacingBreaches(s: Store, k: nat, sub: Submission, e: Env)
    requires k < |s.claims|
    ensures PlaceOrder(s, k, sub, e) == Err(NotPriced(P.InventoryInvariantBreach)) <==>
      e.admits && CartReady(s, sub, e.started) &&
        P.OrderSpec(View(s, e), RequestOf(sub.input)) == Err(P.InventoryInvariantBreach)
  {
  }

  /** A checkout is refused for a breach of the inventory exactly when it reaches the stock check and
      some eligible row of a variant it fetched was over-reserved at the time it started. */
  lemma BreachAnswersExactly(s: Store, sub: Submission, e: Env)
    requires Reachable(s) && Possible(s, e)
    ensures Checkout(s, sub, e).1 == Refused(NotPriced(P.InventoryInvariantBreach)) <==>
      ReachesStock(s, sub, e) && OverReserved(s, e, sub.input.items)
  {
    ReachableInv(s);
    FoundClaim(s, HashOf(sub));
    BreachExactly(s, e, sub.input.items);
    SpecBreaches(View(s, e), RequestOf(sub.input));
    PlacingBreaches(WithClaim(s, sub), |s.claims|, sub, e);
    CheckoutBreaches(s, sub, e);
  }

  lemma CheckoutBreaches(s: Store, sub: Submission, e: Env)
    requires ClaimsOk(s)
    ensures Checkout(s, sub, e).1 == Refused(NotPriced(P.InventoryInvariantBreach)) <==>
      && P.RequestShape(RequestOf(sub.input)).None? && FindClaim(s.claims, HashOf(sub)).None?
      && PlaceOrder(WithClaim(s, sub), |s.claims|, sub, e) == Err(NotPriced(P.InventoryInvariantBreach))
  {
    FoundClaim(s, HashOf(sub));
  }

  lemma EligibleRow(s: Store, eligible: set<nat>, variant: int, n: nat, i: P.Inventory)
    requires n <= |s.items| && i in InventoryFor(s.items, s.reservations, eligible, variant, n) && i.eligible
    ensures 0 <= i.id < |s.items| && i.id in eligible && s.items[i.id].onHand > 0
  {
  }

  // What later steps keep.

  predicate SameRow(r: Reservation, r': Reservation) { r' == r || (r.state == Active && r' == r.(state := Expired)) }

  /** Orders, claims and movements are only added to, a reservation can only expire, a converted
      cart is frozen. */
  predicate Extends(s: Store, t: Store) {
    && s.clock <= t.clock && s.items == t.items
    && s.orders <= t.orders && s.claims <= t.claims && s.movements <= t.movements
    && |s.reservations| <= |t.reservations| &&
      (forall i | 0 <= i < |s.reservations| :: SameRow(s.reservations[i], t.reservations[i]))
    && |s.carts| <= |t.carts| &&
      (forall c | 0 <= c < |s.carts| && s.carts[c].status == CartConverted :: t.carts[c] == s.carts[c])
  }

  lemma ExtendsTransitive(s: Store, t: Store, u: Store)
    requires Extends(s, t) && Extends(t, u)
    ensures Extends(s, u)
  {
  }

  lemma {:induction false} ExpireRowsExtends(s: Store, rows: seq<nat>)
    ensures Extends(s, ExpireRows(s, rows))
    decreases |rows|
  {
    if rows != [] {
      ExpireRowsExtends(ExpireRow(s, rows[0]), rows[1..]);
      ExtendsTransitive(s, ExpireRow(s, rows[0]), ExpireRows(s, rows));
    }
  }

  lemma CheckoutExtends(s: Store, sub: Submission, e: Env)
    requires Inv(s) && Possible(s, e)
    ensures Extends(s, Checkout(s, sub, e).0)
  {
    CheckoutInv(s, sub, e);
    if Checkout(s, sub, e).1.Created? {
      var c, o := CheckoutPlaces(s, sub, e);
    }
  }

  lemma NextExtends(s: Store, step: Step)
    requires Inv(s)
    ensures Extends(s, Next(s, step))
  {
    match step
    case CheckoutStep(submission, env) => if Possible(s, env) { CheckoutExtends(s, submission, env); }
    case SweepStep(cutoff, batchSize) => ExpireRowsExtends(s, Batch(s.reservations, cutoff, batchSize));
    case _ =>
  }

  lemma {:induction false} RunExtends(s: Store, steps: seq<Step>)
    requires Inv(s)
    ensures Extends(s, Run(s, steps))
    decreases |steps|
  {
    if steps != [] {
      NextExtends(s, steps[0]);
      NextInv(s, steps[0]);
      RunExtends(Next(s, steps[0]), steps[1..]);
      ExtendsTransitive(s, Next(s, steps[0]), Run(s, steps));
    }
  }

  /** A reservation expires at most once: it has one releasing movement from then on, and none before. */
  lemma ReleasedOnce(s: Store, steps: seq<Step>, i: nat)
    requires Reachable(s) && i < |s.reservations|
    ensures var t := Run(s, steps); var r := s.reservations[i]; var m := Movement(Releasing, r.item, r.order);
      && i < |t.reservations| && SameRow(r, t.reservations[i])
      && Count(s.movements, m) == (if r.state == Expired then 1 else 0)
      && Count(t.movements, m) == (if t.reservations[i].state == Expired then 1 else 0)
      && Count(t.movements, Movement(Reserving, r.item, r.order)) == 1
  {
    ReachableInv(s);
    RunInv(s, steps);
    RunExtends(s, steps);
    var t := Run(s, steps);
    assert s.reservations[i] in s.reservations && t.reservations[i] in t.reservations;
    assert MovesFor(s.movements, s.reservations[i]) && MovesFor(t.movements, t.reservations[i]);
  }

  // Sweeps.

  lemma {:induction false} ExpireRowsExactly(s: Store, rows: seq<nat>)
    requires DistinctBy(rows, RowId)
    requires forall i | i in rows :: i < |s.reservations| && s.reservations[i].state == Active
    ensures var t := ExpireRows(s, rows);
      && |t.reservations| == |s.reservations| && |t.movements| == |s.movements| + |rows|
      && forall i: nat | i < |s.reservations| ::
        t.reservations[i] == if i in rows then s.reservations[i].(state := Expired) else s.reservations[i]
    decreases |rows|
  {
    if rows != [] {
      var rest := rows[1..];
      forall i | i in rest ensures i != rows[0] {
        var k :| 0 <= k < |rest| && rest[k] == i;
        assert RowId(rows[0]) != RowId(rows[k + 1]);
      }
      forall i, j | 0 <= i < j < |rest| ensures RowId(rest[i]) != RowId(rest[j]) {
        assert RowId(rows[i + 1]) != RowId(rows[j + 1]);
      }
      assert rows == [rows[0]] + rest;
      forall i | i in rest
        ensures i < |s.reservations| && ExpireRow(s, rows[0]).reservations[i] == s.reservations[i] &&
          s.reservations[i].state == Active
      {
        assert i in rows;
      }
      ExpireRowsExactly(ExpireRow(s, rows[0]), rest);
    }
  }

  function Sorted(reservations: seq<Reservation>, cutoff: int): seq<nat> {
    Sort(DueRows(reservations, cutoff), SweepOrder(reservations))
  }

  lemma SortedDue(reservations: seq<Reservation>, cutoff: int)
    ensures var sorted := Sorted(reservations, cutoff);
      && DistinctBy(sorted, RowId) && SortedBy(sorted, SweepOrder(reservations))
      && forall i: nat :: i in sorted <==> i < |reservations| && Due(reservations[i], cutoff)
  {
    var due := DueRows(reservations, cutoff);
    SortDistinct(due, SweepOrder(reservations), RowId);
    SortPermutes(due, SweepOrder(reservations));
    SortSorts(due, SweepOrder(reservations));
  }

  /** The batch holds distinct due rows, all of them if it is not full. */
  lemma BatchDue(reservations: seq<Reservation>, cutoff: int, batchSize: nat)
    ensures var batch := Batch(reservations, cutoff, batchSize);
      && DistinctBy(batch, RowId) && |batch| <= batchSize
      && (forall i | i in batch :: i < |reservations| && Due(reservations[i], cutoff))
      && (|batch| < batchSize ==> forall i: nat | i < |reservations| && Due(reservations[i], cutoff) :: i in batch)
  {
    var sorted := Sorted(reservations, cutoff);
    SortedDue(reservations, cutoff);
    var batch := Batch(reservations, cutoff, batchSize);
    assert forall k | 0 <= k < |batch| :: batch[k] == sorted[k] && sorted[k] in sorted;
    forall i, j | 0 <= i < j < |batch| ensures RowId(batch[i]) != RowId(batch[j]) {
      assert RowId(sorted[i]) != RowId(sorted[j]);
    }
  }

  /** No due row that is left out comes before one that is taken. */
  lemma BatchFirst(reservations: seq<Reservation>, cutoff: int, batchSize: nat, i: nat, j: nat)
    requires i in Batch(reservations, cutoff, batchSize) && j !in Batch(reservations, cutoff, batchSize)
    requires j < |reservations| && Due(reservations[j], cutoff)
    ensures SweepOrder(reservations)(i, j)
  {
    var sorted, batch := Sorted(reservations, cutoff), Batch(reservations, cutoff, batchSize);
    SortedDue(reservations, cutoff);
    var m :| 0 <= m < |sorted| && sorted[m] == j;
    var k :| 0 <= k < |batch| && batch[k] == i;
    assert forall x | 0 <= x < |batch| :: batch[x] == sorted[x] && batch[x] in batch;
    assert k < |batch| <= m;
  }

  /** A batch is the first due rows in the order of the sweep. */
  lemma BatchMembers(reservations: seq<Reservation>, cutoff: int, batchSize: nat)
    ensures var batch := Batch(reservations, cutoff, batchSize);
      && DistinctBy(batch, RowId) && |batch| <= batchSize
      && (forall i | i in batch :: i < |reservations| && Due(reservations[i], cutoff))
      && (|batch| < batchSize ==> forall i: nat | i < |reservations| && Due(reservations[i], cutoff) :: i in batch)
      && (forall i, j: nat | i in batch && j < |reservations| && Due(reservations[j], cutoff) && j !in batch ::
        SweepOrder(reservations)(i, j))
  {
    BatchDue(reservations, cutoff, batchSize);
    var batch := Batch(reservations, cutoff, batchSize);
    forall i, j: nat | i in batch && j < |reservations| && Due(reservations[j], cutoff) && j !in batch
      ensures SweepOrder(reservations)(i, j)
    {
      BatchFirst(reservations, cutoff, batchSize, i, j);
    }
  }

  /** A sweep expires the first batchSize due reservations, by item and then by id, and nothing
      else; its guard against a row without positive quantity never fires. */
  lemma SweepExpiresBatch(s: Store, cutoff: int, batchSize: nat)
    requires Reachable(s) && cutoff <= s.clock + CUTOFF_SKEW
    ensures var t := Sweep(s, cutoff, batchSize); var batch := Batch(s.reservations, cutoff, batchSize);
      && |t.reservations| == |s.reservations| && |t.movements| == |s.movements| + |batch|
      && forall i: nat | i < |s.reservations| ::
        t.reservations[i] == if i in batch then s.reservations[i].(state := Expired) else s.reservations[i]
  {
    ReachableInv(s);
    BatchMembers(s.reservations, cutoff, batchSize);
    var batch := Batch(s.reservations, cutoff, batchSize);
    forall i | i in batch && i < |s.reservations| ensures s.reservations[i].quantity > 0 {
      assert s.reservations[i] in s.reservations && RowOk(s, s.reservations[i]);
    }
    ExpireRowsExactly(s, batch);
  }

  // Idempotency.

  /** Two requests have the same fingerprint exactly when they ask for the same items in any order
      and agree on everything else, an absent express choice meaning no. */
  lemma FingerprintExactly(a: Input, b: Input)
    requires DistinctBy(a.items, A.VariantOf)
    ensures FingerprintOf(a) == FingerprintOf(b) <==>
      multiset(a.items) == multiset(b.items) && a.locality == b.locality && a.pickup == b.pickup &&
      a.express.GetOr(false) == b.express.GetOr(false) && a.details == b.details
  {
    SortPermutes(a.items, A.ByVariant);
    SortPermutes(b.items, A.ByVariant);
    if multiset(a.items) == multiset(b.items) {
      A.Orders();
      A.DistinctTies(a.items, A.VariantOf);
      SortOrderIndependent(a.items, b.items, A.ByVariant);
    }
  }

  lemma NeverInProgress(s: Store, sub: Submission, e: Env)
    requires Inv(s) && Possible(s, e)
    ensures var r := Checkout(s, sub, e).1; r != Refused(IdempotencyInProgress) && r != Refused(ActiveKeyTaken)
    ensures Checkout(s, sub, e).1.Created? ==> FindClaim(s.claims, HashOf(sub)).None?
  {
    FoundClaim(s, HashOf(sub));
    if P.OrderSpec(View(s, e), RequestOf(sub.input)).Ok? { OrderTakes(s, e, RequestOf(sub.input)); }
  }

  /** One order for each claim and one claim for each scoped key; the in-progress, active-key and
      unsettled branches are dead. */
  lemma OneOrderPerKey(s: Store, sub: Submission, e: Env)
    requires Reachable(s) && Possible(s, e)
    ensures |s.claims| == |s.orders| && forall k: nat | k < |s.claims| :: s.claims[k].order == Some(k)
    ensures forall i, j | 0 <= i < j < |s.claims| :: s.claims[i].hash != s.claims[j].hash
    ensures var r := Checkout(s, sub, e).1; r != Refused(IdempotencyInProgress) && r != Refused(ActiveKeyTaken)
    ensures Checkout(s, sub, e).1.Created? ==> FindClaim(s.claims, HashOf(sub)).None?
  {
    ReachableInv(s);
    forall k: nat | k < |s.claims| ensures s.claims[k].order == Some(k) { assert ClaimOk(s, k); }
    NeverInProgress(s, sub, e);
  }

  lemma FindSame(claims: seq<Claim>, k: nat)
    requires k < |claims| && forall i, j | 0 <= i < j < |claims| :: claims[i].hash != claims[j].hash
    ensures FindClaim(claims, claims[k].hash) == Some(k)
  {
    var f := FindClaim(claims, claims[k].hash);
    assert claims[k] in claims;
    assert f.Some? && claims[f.value].hash == claims[k].hash;
  }

  /** Once a submission has created an order, every later submission under that key replays the
      same order if its fingerprint is the same and conflicts otherwise; either way nothing changes. */
  lemma ReplaysForever(s: Store, sub: Submission, e: Env, steps: seq<Step>, again: Submission, e': Env)
    requires Reachable(s) && Possible(s, e) && Checkout(s, sub, e).1.Created?
    requires HashOf(again) == HashOf(sub) && P.RequestShape(RequestOf(again.input)).None?
    ensures var t := Run(Checkout(s, sub, e).0, steps);
      Checkout(t, again, e') ==
        (t, if FingerprintOf(again.input) == FingerprintOf(sub.input)
            then Replayed(|s.orders|) else Refused(IdempotencyConflict))
  {
    ReachableInv(s);
    CheckoutInv(s, sub, e);
    var c, o := CheckoutPlaces(s, sub, e);
    var s' := Checkout(s, sub, e).0;
    var k := |s.claims|;
    assert s'.claims[k].hash == HashOf(sub) && s'.claims[k].fingerprint == FingerprintOf(sub.input);
    RunInv(s', steps);
    RunExtends(s', steps);
    var t := Run(s', steps);
    assert t.claims[k] == s'.claims[k] && ClaimOk(t, k);
    FindSame(t.claims, k);
  }

  /** An order's lines are its cart's rows, its cart is converted for good and belongs to no other
      order, and the order itself never changes. */
  lemma OrderIsItsCart(s: Store, steps: seq<Step>, k: nat)
    requires Reachable(s) && k < |s.orders|
    ensures var t := Run(s, steps); var o := s.orders[k];
      && k < |t.orders| && t.orders[k] == o && o.cart < |t.carts|
      && t.carts[o.cart].status == CartConverted && t.carts[o.cart].customer == o.customer
      && multiset(o.lines) == multiset(t.carts[o.cart].items)
      && forall j | 0 <= j < |t.orders| && j != k :: t.orders[j].cart != o.cart
  {
    ReachableInv(s);
    RunInv(s, steps);
    RunExtends(s, steps);
    var t := Run(s, steps);
    assert t.orders[k] == s.orders[k] && t.orders[k] in t.orders && CartOf(t, t.orders[k]);
  }

  lemma PlacedParts(s: Store, k: nat, sub: Submission, e: Env, c: nat, o: P.Order)
    requires k < |s.claims| && c < |s.carts| && forall a | a in o.allocations :: a.item >= 0
    ensures var t := Placed(s, k, sub, e, c, o);
      && t.orders == s.orders + [Order(sub.customer, c, sub.input.items, o.quote, e.started)]
      && t.reservations == s.reservations + NewReservations(o.allocations, |s.orders|, e.started + RESERVATION_TTL)
  {
  }

  lemma CreatedRows(s: Store, sub: Submission, e: Env) returns (order: Order, rows: seq<Reservation>, o: P.Order)
    requires Inv(s) && Possible(s, e) && Checkout(s, sub, e).1.Created?
    ensures Checkout(s, sub, e).0.orders == s.orders + [order] &&
      Checkout(s, sub, e).0.reservations == s.reservations + rows
    ensures P.OrderSpec(View(s, e), RequestOf(sub.input)) == Ok(o) && order.quote == o.quote &&
      order.lines == sub.input.items
    ensures TakesFit(s, e.started, o.allocations) &&
      rows == NewReservations(o.allocations, |s.orders|, e.started + RESERVATION_TTL)
  {
    var c;
    c, o := CheckoutPlaces(s, sub, e);
    PlacedParts(WithClaim(s, sub), |s.claims|, sub, e, c, o);
    order := Order(sub.customer, c, sub.input.items, o.quote, e.started);
    rows := NewReservations(o.allocations, |s.orders|, e.started + RESERVATION_TTL);
  }

  /** An order that is created was quotable at that moment, line for line and total for total, and
      its reservations hold of each variant just what was asked for. */
  lemma CreatedAsQuoted(s: Store, sub: Submission, e: Env, variant: int) returns (order: Order, rows: seq<Reservation>)
    requires Reachable(s) && Possible(s, e) && Checkout(s, sub, e).1.Created?
    ensures Checkout(s, sub, e).0.orders == s.orders + [order] &&
      Checkout(s, sub, e).0.reservations == s.reservations + rows
    ensures order.lines == sub.input.items && P.QuoteSpec(View(s, e), RequestOf(sub.input)) == Ok(order.quote)
    ensures Sum(rows, OfVariant(s.items, variant)) == A.Requested(sub.input.items, variant)
  {
    ReachableInv(s);
    var o;
    order, rows, o := CreatedRows(s, sub, e);
    QuotedAndTaken(s, e, RequestOf(sub.input), variant);
    RowsAsAllocated(s, o.allocations, |s.orders|, e.started + RESERVATION_TTL, variant);
  }

  lemma QuotedAndTaken(s: Store, e: Env, r: P.Request, variant: int)
    requires RowsOk(s) && DistinctBy(e.catalog.variants, VariantKey) && P.OrderSpec(View(s, e), r).Ok?
    ensures var o := P.OrderSpec(View(s, e), r).value;
      && P.QuoteSpec(View(s, e), r) == Ok(o.quote)
      && A.Handed(o.allocations, A.OfVariant(variant)) == A.Requested(r.items, variant)
      && forall a | a in o.allocations :: 0 <= a.item < |s.items| && s.items[a.item].variant == a.variant
  {
    ViewVariants(s, e);
    Q.SteadyClock(View(s, e), r);
    Q.OrderRefinesQuote(View(s, e), r);
    Q.OrderAllocations(View(s, e), r, variant, 0);
    AllocatedVariants(s, e, r);
  }

  function OfVariant(items: seq<StockItem>, variant: int): Reservation -> int {
    (r: Reservation) => if r.item < |items| && items[r.item].variant == variant then r.quantity else 0
  }

  lemma AllocatedVariants(s: Store, e: Env, r: P.Request)
    requires RowsOk(s) && DistinctBy(e.catalog.variants, VariantKey) && P.OrderSpec(View(s, e), r).Ok?
    ensures forall a | a in P.OrderSpec(View(s, e), r).value.allocations ::
      0 <= a.item < |s.items| && s.items[a.item].variant == a.variant
  {
    var v := View(s, e);
    var fetched := P.Fetch(v.variants, r.items);
    ViewVariants(s, e);
    FetchView(s, e, v.variants, r.items);
    Q.FetchDistinct(v.variants, r.items);
    BucketsView(s, e.eligible, fetched, v.now);
    var buckets := P.Buckets(fetched, v.now).value;
    var allocations := A.Allocate(r.items, buckets).value;
    forall a | a in allocations ensures 0 <= a.item < |s.items| && s.items[a.item].variant == a.variant {
      A.AllocateMeetsRequests(r.items, buckets, a.variant, a.item);
      assert A.FromBuckets(a, r.items, buckets);
      var i :| 0 <= i < |buckets| && buckets[i].id == a.item && buckets[i].variant == a.variant;
      assert AnyBucketFor(s, buckets[i], v.now);
    }
  }

  lemma {:induction false} RowsAsAllocated(s: Store, allocations: seq<A.Allocation>, order: nat, expiresAt: int,
    variant: int)
    requires forall a | a in allocations :: 0 <= a.item < |s.items| && s.items[a.item].variant == a.variant
    ensures Sum(NewReservations(allocations, order, expiresAt), OfVariant(s.items, variant)) ==
      A.Handed(allocations, A.OfVariant(variant))
  {
    if allocations != [] {
      var n := |allocations| - 1;
      var rows := NewReservations(allocations, order, expiresAt);
      RowsAsAllocated(s, allocations[..n], order, expiresAt, variant);
      assert rows[..n] == NewReservations(allocations[..n], order, expiresAt);
      assert allocations[n] in allocations;
    }
  }
}
