/** The checkout's order transaction and the worker's reservation sweep, over the tables. */
module StoreService {
  import opened Wrappers
  import opened Sorting
  import opened StoreTypes
  import opened StoreProof
  import opened StoreTheorems
  import A = Allocation
  import P = CheckoutPricing
  import S = CheckoutService

  const MAX_TRANSACTION_ATTEMPTS := 3

  /** A transaction that the database aborted for a write conflict, or one that ran. */
  datatype Attempted = WriteConflict | Finished(outcome: Outcome)

  /** The first attempt without a write conflict. */
  function FirstTry(conflicts: seq<bool>): (n: nat)
    ensures n <= |conflicts|
  {
    if conflicts == [] || !conflicts[0] then 0 else 1 + FirstTry(conflicts[1..])
  }

  lemma {:induction false} FirstTryAt(conflicts: seq<bool>, k: nat)
    requires k < |conflicts| && FirstTry(conflicts) >= k
    ensures FirstTry(conflicts) == k <==> !conflicts[k]
  {
    if k > 0 { FirstTryAt(conflicts[1..], k - 1); }
  }

  /** The tables after others have run their steps, one batch after another. */
  function Disturbed(s: Store, others: seq<seq<Step>>): Store {
    if others == [] then s else Run(Disturbed(s, others[..|others| - 1]), others[|others| - 1])
  }

  class CheckoutTables {
    var clock: int
    var items: seq<StockItem>
    var reservations: seq<Reservation>
    var movements: seq<Movement>
    var carts: seq<Cart>
    var orders: seq<Order>
    var claims: seq<Claim>

    function Tables(): Store
      reads this
    {
      Store(clock, items, reservations, movements, carts, orders, claims)
    }

    ghost predicate Valid()
      reads this
    {
      Inv(Tables())
    }

    constructor (items: seq<StockItem>)
      ensures Tables() == Start(items)
    {
      this.items := items;
      clock, reservations, movements, carts, orders, claims := 0, [], [], [], [], [];
    }

    /** Inserts the claim unless its key is there, then reads it back. */
    method ClaimIdempotency(sub: Submission) returns (r: Result<nat, Refusal>)
      modifies this`claims
      ensures var found := FindClaim(old(claims), HashOf(sub));
        && claims == (if found.Some? then old(claims) else WithClaim(old(Tables()), sub).claims)
        && r == (if found.None? then Ok(|old(claims)|)
                 else if claims[found.value].scope != sub.customer then Err(IdempotencyConflict)
                 else if claims[found.value].fingerprint != FingerprintOf(sub.input) then Err(IdempotencyConflict)
                 else if claims[found.value].completedAt.None? then Err(IdempotencyInProgress)
                 else Ok(found.value))
    {
      var found := FindClaim(claims, HashOf(sub));
      var mine := found.None?;
      if mine { claims := claims + [Claim(HashOf(sub), sub.customer, FingerprintOf(sub.input), None, None)]; }
      var k := if mine then |claims| - 1 else found.value;
      var claim := claims[k];
      if claim.scope != sub.customer || claim.fingerprint != FingerprintOf(sub.input) {
        return Err(IdempotencyConflict);
      }
      if claim.completedAt.None? && !mine { return Err(IdempotencyInProgress); }
      return Ok(k);
    }

    method LockCheckoutCart(customer: nat, requested: seq<A.Request>, now: int) returns (r: Result<nat, Refusal>)
      ensures r == LockCart(carts, customer, requested, now)
    {
      var candidate := CandidateCart(carts, customer, |carts|);
      if candidate.None? { return Err(CartEmpty); }
      var cart := carts[candidate.value];
      if cart.expiresAt.Some? && cart.expiresAt.value <= now { return Err(CartHasExpired); }
      if Sort(requested, A.ByVariant) != Sort(cart.items, A.ByVariant) { return Err(CartChanged); }
      return Ok(candidate.value);
    }

    /** One reservation and one movement for each allocation. */
    method ReserveStock(allocations: seq<A.Allocation>, order: nat, expiresAt: int)
      requires forall a | a in allocations :: a.item >= 0
      modifies this`reservations, this`movements
      ensures var rows := NewReservations(allocations, order, expiresAt);
        reservations == old(reservations) + rows && movements == old(movements) + Moves(Reserving, rows)
    {
      ghost var rows := NewReservations(allocations, order, expiresAt);
      for k := 0 to |allocations|
        invariant reservations == old(reservations) + rows[..k]
        invariant movements == old(movements) + Moves(Reserving, rows)[..k]
      {
        assert allocations[k] in allocations;
        reservations := reservations +
          [Reservation(allocations[k].item, order, allocations[k].quantity, Active, expiresAt)];
        movements := movements + [Movement(Reserving, allocations[k].item, order)];
      }
    }

    method WriteOrder(claim: nat, sub: Submission, e: Env, cart: nat, o: P.Order) returns (order: nat)
      requires claim < |claims| && cart < |carts| && forall a | a in o.allocations :: a.item >= 0
      modifies this
      ensures Tables() == Placed(old(Tables()), claim, sub, e, cart, o) && order == |old(orders)|
    {
      order := |orders|;
      orders := orders + [Order(sub.customer, cart, sub.input.items, o.quote, e.started)];
      ReserveStock(o.allocations, order, e.started + RESERVATION_TTL);
      claims := claims[claim := claims[claim].(order := Some(order), completedAt := Some(e.started))];
      var c := carts[cart];
      carts := carts[cart := c.(status := CartConverted, version := c.version + 1)];
    }

    /** Everything after the claim; a refusal may leave rows half written, for the caller to undo. */
    method PlaceOrder(claim: nat, sub: Submission, e: Env) returns (r: Result<nat, Refusal>)
      requires claim < |claims|
      modifies this
      ensures match StoreTypes.PlaceOrder(old(Tables()), claim, sub, e)
        case Ok(s) => r == Ok(|old(orders)|) && Tables() == s
        case Err(refusal) => r == Err(refusal) && Tables() == old(Tables())
    {
      if !e.admits { return Err(CheckoutRefused); }
      var cart := LockCheckoutCart(sub.customer, sub.input.items, e.started);
      if cart.Err? { return Err(cart.error); }
      var priced := S.PriceOrder(View(Tables(), e), RequestOf(sub.input));
      if priced.Err? { return Err(NotPriced(priced.error)); }
      if !e.completes { return Err(Incomplete); }
      var allocations := priced.value.allocations;
      if !DistinctBy(allocations, A.ItemOf) || exists a | a in allocations :: a.item < 0 { return Err(ActiveKeyTaken); }
      var order := WriteOrder(claim, sub, e, cart.value, priced.value);
      return Ok(order);
    }

    method CreateInTransaction(sub: Submission, e: Env) returns (outcome: Outcome)
      requires P.RequestShape(RequestOf(sub.input)).None?
      modifies this
      ensures (Tables(), outcome) == Checkout(old(Tables()), sub, e)
    {
      var before := claims;
      var claim := ClaimIdempotency(sub);
      if claim.Err? { claims := before; return Refused(claim.error); }
      var row := claims[claim.value];
      if row.order.Some? && row.completedAt.Some? { return Replayed(row.order.value); }
      var order := PlaceOrder(claim.value, sub, e);
      if order.Err? { claims := before; return Refused(order.error); }
      return Created(order.value);
    }

    /** What other requests do in the meantime. */
    method Meanwhile(steps: seq<Step>)
      modifies this
      ensures Tables() == Run(old(Tables()), steps)
    {
      var s := Run(Tables(), steps);
      clock, items, reservations, movements := s.clock, s.items, s.reservations, s.movements;
      carts, orders, claims := s.carts, s.orders, s.claims;
    }

    /** At most three transactions, each on what the others have left by then and with its own start;
        a write conflict rolls its transaction back, and only the last one is reported. */
    method Create(sub: Submission, envs: seq<Env>, conflicts: seq<bool>, others: seq<seq<Step>>) returns (r: Attempted)
      requires |envs| == |conflicts| == |others| == MAX_TRANSACTION_ATTEMPTS
      modifies this
      ensures P.RequestShape(RequestOf(sub.input)).Some? ==>
        r == Finished(Refused(NotPriced(P.RequestShape(RequestOf(sub.input)).value))) && Tables() == old(Tables())
      ensures P.RequestShape(RequestOf(sub.input)).None? && FirstTry(conflicts) == |conflicts| ==>
        r == WriteConflict && Tables() == Disturbed(old(Tables()), others)
      ensures P.RequestShape(RequestOf(sub.input)).None? && FirstTry(conflicts) < |conflicts| ==>
        var n := FirstTry(conflicts);
        r.Finished? && (Tables(), r.outcome) == Checkout(Disturbed(old(Tables()), others[..n + 1]), sub, envs[n])
    {
      var misshapen := P.RequestShape(RequestOf(sub.input));
      if misshapen.Some? { return Finished(Refused(NotPriced(misshapen.value))); }
      for attempt := 1 to MAX_TRANSACTION_ATTEMPTS + 1
        invariant Tables() == Disturbed(old(Tables()), others[..attempt - 1])
        invariant FirstTry(conflicts) >= attempt - 1
      {
        Meanwhile(others[attempt - 1]);
        assert others[..attempt][..attempt - 1] == others[..attempt - 1];
        FirstTryAt(conflicts, attempt - 1);
        if !conflicts[attempt - 1] {
          var outcome := CreateInTransaction(sub, envs[attempt - 1]);
          return Finished(outcome);
        }
        if attempt == MAX_TRANSACTION_ATTEMPTS {
          assert others[..attempt] == others;
          return WriteConflict;
        }
      }
      assert others[..MAX_TRANSACTION_ATTEMPTS] == others;
      return WriteConflict;
    }

    /** Expires the row if it is still active. */
    method ExpireReservation(i: nat) returns (updated: bool)
      requires i < |reservations|
      modifies this`reservations, this`movements
      ensures Tables() == ExpireRow(old(Tables()), i)
      ensures updated <==> old(reservations)[i].state == Active
    {
      var r := reservations[i];
      updated := r.state == Active;
      if updated {
        reservations := reservations[i := r.(state := Expired)];
        movements := movements + [Movement(Releasing, r.item, r.order)];
      }
    }

    /** Row by row, up to a row with no positive quantity. */
    method ExpireBatch(rows: seq<nat>) returns (aborted: bool, count: nat)
      requires DistinctBy(rows, RowId) && StillDue(reservations, rows, 0)
      modifies this`reservations, this`movements
      ensures aborted ==> exists j :: 0 <= j < |rows| && old(reservations)[rows[j]].quantity <= 0
      ensures !aborted ==> Tables() == ExpireRows(old(Tables()), rows) && count == |rows|
      ensures !aborted ==> forall j | 0 <= j < |rows| :: old(reservations)[rows[j]].quantity > 0
    {
      var read := reservations;
      ghost var before := Tables();
      count := 0;
      assert rows[0..] == rows;
      for k := 0 to |rows|
        invariant StillDue(reservations, rows, k) && count == k
        invariant ExpireRows(before, rows) == ExpireRows(Tables(), rows[k..])
        invariant forall j | 0 <= j < k :: read[rows[j]].quantity > 0
      {
        var i := rows[k];
        assert rows[k..][0] == i && rows[k..][1..] == rows[k + 1..];
        if read[i].quantity <= 0 { return true, count; }
        StillDueStep(Tables(), rows, k);
        var updated := ExpireReservation(i);
        if !updated { continue; }
        count := count + 1;
      }
      return false, count;
    }

    /** The sweep; a row with no positive quantity aborts it and undoes what it had written. */
    method ExpireReservations(cutoff: int, batchSize: nat) returns (released: Option<nat>)
      modifies this`reservations, this`movements
      ensures Tables() == Sweep(old(Tables()), cutoff, batchSize)
      ensures released.Some? ==> released.value == |Batch(old(reservations), cutoff, batchSize)|
    {
      if cutoff > clock + CUTOFF_SKEW { return None; }
      var rows := Batch(reservations, cutoff, batchSize);
      BatchMembers(reservations, cutoff, batchSize);
      assert forall j | 0 <= j < |rows| :: rows[j] in rows;
      var read, moved := reservations, movements;
      var aborted, count := ExpireBatch(rows);
      if aborted {
        reservations, movements := read, moved;
        return None;
      }
      return Some(count);
    }
  }

  /** The rows from k on are still active. */
  ghost predicate StillDue(reservations: seq<Reservation>, rows: seq<nat>, k: nat) {
    forall j | k <= j < |rows| :: rows[j] < |reservations| && reservations[rows[j]].state == Active
  }

  lemma StillDueStep(s: Store, rows: seq<nat>, k: nat)
    requires k < |rows| && DistinctBy(rows, RowId) && StillDue(s.reservations, rows, k)
    ensures StillDue(ExpireRow(s, rows[k]).reservations, rows, k + 1)
  {
    assert forall j | k < j < |rows| :: RowId(rows[k]) != RowId(rows[j]);
  }
}
