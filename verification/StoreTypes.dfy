/** Orders placed against carts, stock and idempotency keys, and the sweep that expires stock
    reservations. Each transaction is one step; it may have read its clock before it got its locks,
    so a step carries the time it started at. */
module StoreTypes {
  import opened Wrappers
  import opened Sums
  import opened Sorting
  import A = Allocation
  import P = CheckoutPricing

  /** A row of inventory of one variant; the amount on hand does not change here. */
  datatype StockItem = StockItem(variant: int, onHand: int)

  datatype ReservationState = Active | Expired

  datatype Reservation = Reservation(item: nat, order: nat, quantity: int, state: ReservationState, expiresAt: int)

  datatype MovementKind = Reserving | Releasing

  datatype Movement = Movement(kind: MovementKind, item: nat, order: nat)

  datatype CartStatus = CartActive | CartConverted | CartExpired

  datatype Cart = Cart(customer: nat, status: CartStatus, version: nat, updatedAt: int, expiresAt: Option<int>,
    items: seq<A.Request>)

  datatype Order = Order(customer: nat, cart: nat, lines: seq<A.Request>, quote: P.Quote, createdAt: int)

  /** The hash of a scope and a key, taken as injective. */
  datatype KeyHash = KeyHash(scope: nat, key: nat)

  /** The hash of the canonical request, taken as injective. */
  datatype Fingerprint = Fingerprint(items: seq<A.Request>, locality: Option<int>, pickup: Option<int>, express: bool,
    details: int)

  datatype Claim = Claim(hash: KeyHash, scope: nat, fingerprint: Fingerprint, order: Option<nat>,
    completedAt: Option<int>)

  datatype Store = Store(
    clock: int, items: seq<StockItem>, reservations: seq<Reservation>, movements: seq<Movement>,
    carts: seq<Cart>, orders: seq<Order>, claims: seq<Claim>)

  /** details stands for the fields of the request that only the fingerprint looks at. */
  datatype Input = Input(items: seq<A.Request>, locality: Option<int>, pickup: Option<int>, express: Option<bool>,
    details: int)

  datatype Submission = Submission(customer: nat, key: nat, input: Input)

  /** What a checkout finds outside these tables: when it started, the catalogue and delivery
      settings, which inventory is eligible, and whether the checks before and after pricing pass. */
  datatype Env = Env(started: int, catalog: P.Snapshot, eligible: set<nat>, admits: bool, completes: bool)

  datatype Refusal =
    | IdempotencyConflict | IdempotencyInProgress | CheckoutRefused | CartEmpty | CartHasExpired | CartChanged
    | NotPriced(error: P.Error) | Incomplete | ActiveKeyTaken

  datatype Outcome = Created(order: nat) | Replayed(order: nat) | Refused(refusal: Refusal)

  const RESERVATION_TTL := 30 * 60 * 1_000

  const CUTOFF_SKEW := 5_000

  function Start(items: seq<StockItem>): Store { Store(0, items, [], [], [], [], []) }

  // Idempotency.

  function RequestOf(i: Input): P.Request { P.Request(i.items, i.locality, i.pickup, i.express.GetOr(false)) }

  function FingerprintOf(i: Input): Fingerprint {
    Fingerprint(Sort(i.items, A.ByVariant), i.locality, i.pickup, i.express.GetOr(false), i.details)
  }

  function HashOf(sub: Submission): KeyHash { KeyHash(sub.customer, sub.key) }

  function FindClaim(claims: seq<Claim>, hash: KeyHash): (r: Option<nat>)
    ensures r.Some? ==> r.value < |claims| && claims[r.value].hash == hash
    ensures r.None? ==> forall c | c in claims :: c.hash != hash
  {
    if claims == [] then None
    else if claims[|claims| - 1].hash == hash then Some(|claims| - 1)
    else FindClaim(claims[..|claims| - 1], hash)
  }

  // The cart.

  predicate Fresher(carts: seq<Cart>, i: nat, j: nat)
    requires i < |carts| && j < |carts|
  {
    carts[i].updatedAt > carts[j].updatedAt || (carts[i].updatedAt == carts[j].updatedAt && i <= j)
  }

  /** The customer's active cart: the last updated, then the smallest id. */
  function CandidateCart(carts: seq<Cart>, customer: nat, n: nat): (r: Option<nat>)
    requires n <= |carts|
    ensures r.Some? ==> r.value < n && carts[r.value].customer == customer && carts[r.value].status == CartActive
    ensures r.Some? ==>
      forall j | 0 <= j < n && carts[j].customer == customer && carts[j].status == CartActive ::
        Fresher(carts, r.value, j)
    ensures r.None? ==> forall j | 0 <= j < n && carts[j].customer == customer :: carts[j].status != CartActive
  {
    if n == 0 then None
    else
      var rest := CandidateCart(carts, customer, n - 1);
      if carts[n - 1].customer != customer || carts[n - 1].status != CartActive then rest
      else if rest.Some? && Fresher(carts, rest.value, n - 1) then rest
      else Some(n - 1)
  }

  /** The submitted items are exactly the rows of the cart. */
  predicate Matches(items: seq<A.Request>, cart: Cart) { Sort(items, A.ByVariant) == Sort(cart.items, A.ByVariant) }

  predicate ExpiredAt(cart: Cart, now: int) { cart.expiresAt.Some? && cart.expiresAt.value <= now }

  /** The cart that an order of these items converts. */
  function LockCart(carts: seq<Cart>, customer: nat, requested: seq<A.Request>, now: int): (r: Result<nat, Refusal>)
    ensures r.Ok? ==> r.value < |carts|
  {
    match CandidateCart(carts, customer, |carts|)
    case None => Err(CartEmpty)
    case Some(c) =>
      if ExpiredAt(carts[c], now) then Err(CartHasExpired)
      else if !Matches(requested, carts[c]) then Err(CartChanged)
      else Ok(c)
  }

  // Stock as the order sees it.

  function Holding(item: nat, at: int): Reservation -> int {
    (r: Reservation) => if r.item == item && r.state == Active && r.expiresAt > at then r.quantity else 0
  }

  /** What active reservations still hold of an item at a time. */
  function Reserved(s: Store, item: nat, at: int): int { Sum(s.reservations, Holding(item, at)) }

  function ReservationsOf(reservations: seq<Reservation>, item: nat): seq<P.Reservation> {
    if reservations == [] then []
    else
      var r := reservations[|reservations| - 1];
      ReservationsOf(reservations[..|reservations| - 1], item) +
        if r.item == item then [P.Reservation(r.state == Active, r.expiresAt, r.quantity)] else []
  }

  function InventoryRow(stock: seq<StockItem>, reservations: seq<Reservation>, eligible: set<nat>, i: nat): P.Inventory
    requires i < |stock|
  {
    P.Inventory(i, i in eligible && stock[i].onHand > 0, stock[i].onHand, ReservationsOf(reservations, i))
  }

  function InventoryFor(stock: seq<StockItem>, reservations: seq<Reservation>, eligible: set<nat>, variant: int,
    n: nat): seq<P.Inventory>
    requires n <= |stock|
  {
    if n == 0 then []
    else
      InventoryFor(stock, reservations, eligible, variant, n - 1) +
        if stock[n - 1].variant == variant then [InventoryRow(stock, reservations, eligible, n - 1)] else []
  }

  function WithStock(stock: seq<StockItem>, reservations: seq<Reservation>, eligible: set<nat>,
    v: P.Variant): P.Variant {
    v.(inventory := InventoryFor(stock, reservations, eligible, v.id, |stock|))
  }

  function Stocked(stock: seq<StockItem>, reservations: seq<Reservation>, eligible: set<nat>,
    variants: seq<P.Variant>): (r: seq<P.Variant>)
    ensures |r| == |variants|
  {
    seq(|variants|, k requires 0 <= k < |variants| => WithStock(stock, reservations, eligible, variants[k]))
  }

  /** The catalogue with the stock of these tables, read at the time the transaction started. */
  function View(s: Store, e: Env): P.Snapshot {
    e.catalog.(now := e.started, courierNow := e.started,
      variants := Stocked(s.items, s.reservations, e.eligible, e.catalog.variants))
  }

  function NewReservations(allocations: seq<A.Allocation>, order: nat, expiresAt: int): (r: seq<Reservation>)
    requires forall a | a in allocations :: a.item >= 0
    ensures |r| == |allocations|
  {
    seq(|allocations|, k requires 0 <= k < |allocations| =>
      assert allocations[k] in allocations;
      Reservation(allocations[k].item, order, allocations[k].quantity, Active, expiresAt))
  }

  function Moves(kind: MovementKind, rows: seq<Reservation>): (r: seq<Movement>)
    ensures |r| == |rows|
  {
    seq(|rows|, k requires 0 <= k < |rows| => Movement(kind, rows[k].item, rows[k].order))
  }

  // Transactions.

  /** The rest of the transaction once the claim is held: cart, prices, stock, then every row. */
  function PlaceOrder(s: Store, claim: nat, sub: Submission, e: Env): Result<Store, Refusal>
    requires claim < |s.claims|
  {
    if !e.admits then Err(CheckoutRefused)
    else
      var c :- LockCart(s.carts, sub.customer, sub.input.items, e.started);
      match P.OrderSpec(View(s, e), RequestOf(sub.input))
      case Err(error) => Err(NotPriced(error))
      case Ok(o) =>
        if !e.completes then Err(Incomplete)
        else if !DistinctBy(o.allocations, A.ItemOf) || (exists a | a in o.allocations :: a.item < 0)
        then Err(ActiveKeyTaken)
        else Ok(Placed(s, claim, sub, e, c, o))
  }

  function Placed(s: Store, claim: nat, sub: Submission, e: Env, c: nat, o: P.Order): Store
    requires claim < |s.claims| && c < |s.carts| && forall a | a in o.allocations :: a.item >= 0
  {
    var rows := NewReservations(o.allocations, |s.orders|, e.started + RESERVATION_TTL);
    s.(orders := s.orders + [Order(sub.customer, c, sub.input.items, o.quote, e.started)],
       reservations := s.reservations + rows,
       movements := s.movements + Moves(Reserving, rows),
       claims := s.claims[claim := s.claims[claim].(order := Some(|s.orders|), completedAt := Some(e.started))],
       carts := s.carts[c := s.carts[c].(status := CartConverted, version := s.carts[c].version + 1)])
  }

  /** A whole order transaction; a refusal rolls everything back, the claim included. */
  function Checkout(s: Store, sub: Submission, e: Env): (Store, Outcome) {
    match P.RequestShape(RequestOf(sub.input))
    case Some(error) => (s, Refused(NotPriced(error)))
    case None =>
      match FindClaim(s.claims, HashOf(sub))
      case Some(k) =>
        var claim := s.claims[k];
        if claim.scope != sub.customer || claim.fingerprint != FingerprintOf(sub.input)
        then (s, Refused(IdempotencyConflict))
        else if claim.completedAt.None? then (s, Refused(IdempotencyInProgress))
        else if claim.order.Some? then (s, Replayed(claim.order.value))
        else Settle(s, PlaceOrder(s, k, sub, e))
      case None =>
        var claim := Claim(HashOf(sub), sub.customer, FingerprintOf(sub.input), None, None);
        Settle(s, PlaceOrder(s.(claims := s.claims + [claim]), |s.claims|, sub, e))
  }

  function Settle(s: Store, r: Result<Store, Refusal>): (Store, Outcome) {
    match r
    case Ok(s') => (s', Created(|s.orders|))
    case Err(refusal) => (s, Refused(refusal))
  }

  // The sweep.

  predicate Due(r: Reservation, cutoff: int) { r.state == Active && r.expiresAt <= cutoff }

  function RowId(i: nat): nat { i }

  function DueRows(reservations: seq<Reservation>, cutoff: int): (r: seq<nat>)
    ensures forall i | i in r :: i < |reservations| && Due(reservations[i], cutoff)
    ensures forall i: nat | i < |reservations| && Due(reservations[i], cutoff) :: i in r
    ensures DistinctBy(r, RowId)
  {
    if reservations == [] then []
    else
      var n := |reservations| - 1;
      var front := DueRows(reservations[..n], cutoff);
      assert forall k | 0 <= k < |front| :: front[k] in front;
      front + if Due(reservations[n], cutoff) then [n] else []
  }

  function ItemAt(reservations: seq<Reservation>, i: nat): nat {
    if i < |reservations| then reservations[i].item else 0
  }

  /** Sweeps take reservations by inventory item, then by id. */
  function SweepOrder(reservations: seq<Reservation>): (nat, nat) -> bool {
    (i: nat, j: nat) =>
      ItemAt(reservations, i) < ItemAt(reservations, j) ||
        (ItemAt(reservations, i) == ItemAt(reservations, j) && i <= j)
  }

  function Batch(reservations: seq<Reservation>, cutoff: int, batchSize: nat): seq<nat> {
    var due := Sort(DueRows(reservations, cutoff), SweepOrder(reservations));
    if |due| <= batchSize then due else due[..batchSize]
  }

  function ExpireRow(s: Store, i: nat): Store {
    if i < |s.reservations| && s.reservations[i].state == Active
    then
      var r := s.reservations[i];
      s.(reservations := s.reservations[i := r.(state := Expired)],
         movements := s.movements + [Movement(Releasing, r.item, r.order)])
    else s
  }

  function ExpireRows(s: Store, rows: seq<nat>): Store
    decreases |rows|
  {
    if rows == [] then s else ExpireRows(ExpireRow(s, rows[0]), rows[1..])
  }

  /** A cutoff too far ahead of the worker's clock, or a row with no positive quantity, aborts the sweep. */
  function Sweep(s: Store, cutoff: int, batchSize: nat): Store {
    if cutoff > s.clock + CUTOFF_SKEW then s
    else
      var batch := Batch(s.reservations, cutoff, batchSize);
      if exists i | i in batch && i < |s.reservations| :: s.reservations[i].quantity <= 0 then s
      else ExpireRows(s, batch)
  }

  // Carts, as their own service edits them.

  function OpenCart(s: Store, customer: nat, items: seq<A.Request>, expiresAt: Option<int>): Store {
    if !DistinctBy(items, A.VariantOf) then s
    else s.(carts := s.carts + [Cart(customer, CartActive, 1, s.clock, expiresAt, items)])
  }

  function EditCart(s: Store, c: nat, items: seq<A.Request>, expiresAt: Option<int>): Store {
    if c >= |s.carts| || s.carts[c].status != CartActive || !DistinctBy(items, A.VariantOf) then s
    else
      var edited := s.carts[c].(items := items, version := s.carts[c].version + 1, updatedAt := s.clock,
        expiresAt := expiresAt);
      s.(carts := s.carts[c := edited])
  }

  function ExpireCart(s: Store, c: nat): Store {
    if c >= |s.carts| || s.carts[c].status != CartActive then s
    else s.(carts := s.carts[c := s.carts[c].(status := CartExpired, version := s.carts[c].version + 1)])
  }

  datatype Step =
    | Tick(elapsed: nat)
    | OpenCartStep(customer: nat, items: seq<A.Request>, expiresAt: Option<int>)
    | EditCartStep(cart: nat, items: seq<A.Request>, expiresAt: Option<int>)
    | ExpireCartStep(cart: nat)
    | CheckoutStep(submission: Submission, env: Env)
    | SweepStep(cutoff: int, batchSize: nat)

  function VariantKey(v: P.Variant): int { v.id }

  /** A transaction cannot have started in the future, and catalogue variants have distinct ids. */
  predicate Possible(s: Store, e: Env) { e.started <= s.clock && DistinctBy(e.catalog.variants, VariantKey) }

  function Next(s: Store, step: Step): Store {
    match step
    case Tick(elapsed) => s.(clock := s.clock + elapsed)
    case OpenCartStep(customer, items, expiresAt) => OpenCart(s, customer, items, expiresAt)
    case EditCartStep(cart, items, expiresAt) => EditCart(s, cart, items, expiresAt)
    case ExpireCartStep(cart) => ExpireCart(s, cart)
    case CheckoutStep(submission, env) => if Possible(s, env) then Checkout(s, submission, env).0 else s
    case SweepStep(cutoff, batchSize) => Sweep(s, cutoff, batchSize)
  }

  function Run(s: Store, steps: seq<Step>): Store
    decreases |steps|
  {
    if steps == [] then s else Run(Next(s, steps[0]), steps[1..])
  }
}
