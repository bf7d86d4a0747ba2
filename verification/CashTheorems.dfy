/** What holds of the cash ledger over every run of its transactions. */
module CashTheorems {
  import opened Wrappers
  import opened Sums
  import opened CashTypes
  import opened CashLedger
  import opened CashInvariant
  import opened CashRecordProof
  import opened CashRemittanceProof
  import opened CashVerifyProof

  // Every transaction keeps the invariant.

  lemma PendingRemittable(l: Ledger, r: nat)
    requires Inv(l) && r < |l.remittances| && l.remittances[r].status != Verified
    ensures ItemsRemittable(l, r)
  {
    forall it | it in l.items && it.remittance == r
      ensures l.collections[it.collection].courier == Some(l.remittances[r].courier) &&
        Remittable(l.collections[it.collection].status)
    {
      var i :| 0 <= i < |l.items| && l.items[i] == it;
      PendingItem(l, i);
      assert ItemOk(l, it);
    }
  }

  lemma TotalIs(l: Ledger, r: nat)
    requires Inv(l) && r < |l.remittances|
    ensures RemittanceTotal(l, r) == Ok(l.remittances[r].declared)
  {
    assert RemittanceOk(l.remittances[r], Sum(l.items, OfRemittance(r)));
    forall it | it in l.items && it.remittance == r ensures ValidMillimes(it.amount) { assert ItemOk(l, it); }
  }

  lemma FlagInv(l: Ledger, r: nat)
    requires Inv(l) && r < |l.remittances| && l.remittances[r].status != Verified
    ensures Inv(l.(orders := FlagOrders(l, r)))
    ensures forall o | 0 <= o < |l.orders| && Touches(l, r, o) :: l.orders[o].payment != CashRemitted
  {
    var l' := l.(orders := FlagOrders(l, r));
    PendingRemittable(l, r);
    forall o | 0 <= o < |l.orders| && Touches(l, r, o) ensures l.orders[o].payment != CashRemitted {
      assert OrderOk(l, o);
    }
    forall c | 0 <= c < |l'.collections| ensures RowOkAt(l', c) { assert RowOkAt(l, c); }
    forall o | 0 <= o < |l'.orders| ensures OrderOk(l', o) { assert OrderOk(l, o); }
    forall it | it in l'.items ensures ItemOk(l', it) { assert ItemOk(l, it); }
  }

  lemma ReconcileInv(l: Ledger, r: nat, user: nat, verified: int, code: Option<string>, detail: Option<string>)
    requires Inv(l)
    ensures Inv(Reconcile(l, r, user, verified, code, detail).0)
  {
    if ReconcileCheck(l, r, user, verified, code, detail) == Done {
      var m := l.remittances[r];
      var row := ReconciledRow(m, user, verified);
      var b := l.(remittances := l.remittances[r := row]);
      assert RemittanceOk(m, Sum(l.items, OfRemittance(r)));
      if verified != m.declared {
        RemittanceRowInv(l, r, row);
        assert FlagOrders(b, r) == FlagOrders(l, r);
        FlagInv(b, r);
      } else {
        ApplyVerifiedSucceeds(l, b, r);
        AppliedInv(l, b, r, row);
        assert b.remittances[r := row] == b.remittances;
      }
    }
  }

  lemma ResolveRemittanceInv(l: Ledger, r: nat, i: nat, user: nat, how: Resolution)
    requires Inv(l)
    ensures Inv(ResolveRemittance(l, r, i, user, how).0)
  {
    if ResolveRemittanceCheck(l, r, i, user, how) == Done {
      var row := ResolvedRemittance(l.remittances[r], i, user, how);
      assert RemittanceOk(l.remittances[r], Sum(l.items, OfRemittance(r)));
      if how.WriteOff? {
        RemittanceRowInv(l, r, row);
      } else {
        assert Verifying(l, l, r);
        ApplyVerifiedSucceeds(l, l, r);
        AppliedInv(l, l, r, row);
      }
    }
  }

  /** Another collection of the same order that has not been voided. */
  predicate OtherLive(l: Ledger, c: nat, i: nat)
    requires c < |l.collections| && i < |l.collections|
  {
    i != c && l.collections[i].order == l.collections[c].order && l.collections[i].status != Voided
  }

  /** Every other collection of the order has been voided. */
  predicate StandsAlone(l: Ledger, c: nat)
    requires c < |l.collections|
  {
    forall i | 0 <= i < |l.collections| && i != c && l.collections[i].order == l.collections[c].order ::
      l.collections[i].status == Voided
  }

  lemma OthersVoided(l: Ledger, c: nat)
    requires c < |l.collections|
    ensures StandsAlone(l, c) <==> forall i | 0 <= i < |l.collections| :: !OtherLive(l, c, i)
  {
    if !StandsAlone(l, c) {
      var i :| 0 <= i < |l.collections| && i != c && l.collections[i].order == l.collections[c].order &&
        l.collections[i].status != Voided;
      assert OtherLive(l, c, i);
    }
    if i :| 0 <= i < |l.collections| && OtherLive(l, c, i) {
      assert l.collections[i].status != Voided;
    }
  }

  /** The first other live collection, if there is one, has an amount the ledger does not accept. */
  predicate AmountBlocks(l: Ledger, c: nat, upto: nat)
    requires c < |l.collections| && upto <= |l.collections|
  {
    exists i :: 0 <= i < upto && OtherLive(l, c, i) && !(0 <= l.collections[i].expected <= 2_000_000_000)
      && forall j | 0 <= j < i :: !OtherLive(l, c, j)
  }

  /** The running total stops at the first other live collection, since that one was never recorded:
      with an error when its amount is out of range, and without a total otherwise. */
  lemma {:induction false} ProjectionIs(l: Ledger, c: nat, upto: nat)
    requires Inv(l) && c < |l.collections| && Recorded(l.collections[c]) && upto <= |l.collections|
    ensures ProjectionTotal(l, c, upto) ==
      if AmountBlocks(l, c, upto) then Err(InvalidMillimes)
      else if exists i :: 0 <= i < upto && OtherLive(l, c, i) then Ok(None)
      else Ok(Some(if c < upto then l.collections[c].expected else 0))
  {
    if upto > 0 {
      ProjectionIs(l, c, upto - 1);
      assert RowOkAt(l, upto - 1);
      if OtherLive(l, c, upto - 1) { assert !Recorded(l.collections[upto - 1]); }
    }
  }

  lemma SetCouriersInv(l: Ledger, couriers: set<nat>)
    requires Inv(l)
    ensures Inv(l.(activeCouriers := couriers))
  {
    var l' := l.(activeCouriers := couriers);
    forall c | 0 <= c < |l'.collections| ensures RowOkAt(l', c) { assert RowOkAt(l, c); }
    forall it | it in l'.items ensures ItemOk(l', it) { assert ItemOk(l, it); }
    OrdersUnchanged(l, l');
  }

  lemma ApplyInv(l: Ledger, s: Step)
    requires Inv(l)
    ensures Inv(Apply(l, s).0)
  {
    match s
    case RecordStep(c, input, key, user, partialEnabled) => RecordInv(l, c, input, key, user, partialEnabled);
    case CreateStep(create) => CreateInv(l, create);
    case SubmitStep(r, user) => SubmitInv(l, r, user);
    case ReconcileStep(r, user, verified, code, detail) => ReconcileInv(l, r, user, verified, code, detail);
    case ResolveCollectionStep(c, user, how) => ResolveCollectionInv(l, c, user, how);
    case ResolveRemittanceStep(r, i, user, how) => ResolveRemittanceInv(l, r, i, user, how);
    case PlaceOrderStep(order, amounts) => PlaceOrderInv(l, order, amounts);
    case MoveDeliveryStep(d, orderStage, stage, courier) => MoveDeliveryInv(l, d, orderStage, stage, courier);
    case CancelOrderStep(o) => CancelOrderInv(l, o);
    case SetCouriersStep(couriers) => SetCouriersInv(l, couriers);
  }

  /** The ledger after a sequence of transactions, refused ones included. */
  function Run(l: Ledger, steps: seq<Step>): (l': Ledger)
    requires Inv(l)
    ensures Inv(l')
    decreases |steps|
  {
    if steps == [] then l
    else
      ApplyInv(l, steps[0]);
      Run(Apply(l, steps[0]).0, steps[1..])
  }

  ghost predicate Reachable(l: Ledger) {
    InvEmpty();
    exists steps: seq<Step> :: Run(EmptyLedger, steps) == l
  }

  lemma ReachableInv(l: Ledger)
    requires Reachable(l)
    ensures Inv(l)
  {
    InvEmpty();
    var steps: seq<Step> :| Run(EmptyLedger, steps) == l;
  }

  // The terms of the theorems, on the columns.

  /** The amount a collection answers for: what was collected, or the expected amount after an exact
      second count. */
  function AnswersFor(k: Collection): int {
    if k.discrepancy.Some? && k.discrepancy.value.status == Resolved then k.expected else k.collected
  }

  /** There is no discrepancy, or it has been resolved or written off. */
  predicate Undisputed(k: Collection) {
    k.discrepancy.None? || k.discrepancy.value.status == Resolved || k.discrepancy.value.status == WrittenOff
  }

  function PromisedItem(c: nat): Item -> int { (it: Item) => if it.collection == c then it.amount else 0 }

  /** What remittances of any status ask of collection c. */
  function Promised(l: Ledger, c: nat): int { Sum(l.items, PromisedItem(c)) }

  function PaidItem(remittances: seq<Remittance>, c: nat): Item -> int {
    (it: Item) =>
      if it.collection == c && it.remittance < |remittances| && remittances[it.remittance].status == Verified
      then it.amount else 0
  }

  /** What verified remittances have brought in for collection c. */
  function Paid(l: Ledger, c: nat): int { Sum(l.items, PaidItem(l.remittances, c)) }

  function ListedItem(r: nat): Item -> int { (it: Item) => if it.remittance == r then it.amount else 0 }

  /** What the allocations of remittance r add up to. */
  function Listed(l: Ledger, r: nat): int { Sum(l.items, ListedItem(r)) }

  predicate ValidAmount(v: int) { 0 <= v <= 2_000_000_000 }

  predicate Explained(code: Option<string>, detail: Option<string>) {
    code.Some? && code.value != "" && detail.Some? && |detail.value| >= 4
  }

  lemma SumsAre(l: Ledger, c: nat)
    ensures Promised(l, c) == Allocated(l, c) && Paid(l, c) == VerifiedAllocated(l, c)
  {
    SumEq(l.items, PromisedItem(c), ToCollection(c));
    SumEq(l.items, PaidItem(l.remittances, c), VerifiedTo(l.remittances, c));
  }

  lemma ListedIs(l: Ledger, r: nat)
    ensures Listed(l, r) == Sum(l.items, OfRemittance(r))
  {
    SumEq(l.items, ListedItem(r), OfRemittance(r));
  }

  // Guards that cannot fire.

  /** What a request may still draw from a collection of its courier. */
  predicate CanDraw(l: Ledger, courier: nat, a: Allocation)
    requires a.collection < |l.collections|
  {
    var k := l.collections[a.collection];
    && (k.status == Collected || k.status == PartiallyCollected) && k.courier == Some(courier) && Undisputed(k)
    && Promised(l, a.collection) + a.amount <= AnswersFor(k)
  }

  lemma AllocationErrorIs(l: Ledger, courier: nat, a: Allocation)
    requires Inv(l) && a.collection < |l.collections|
    ensures AllocationError(l, courier, a.collection, a.amount) == None <==> CanDraw(l, courier, a)
  {
    assert RowOkAt(l, a.collection);
    SumsAre(l, a.collection);
  }

  lemma DeclaredTotal(allocations: seq<Allocation>, declared: int)
    requires forall a | a in allocations :: a.amount > 0
    ensures SumMillimes(Amounts(allocations)) == Ok(declared) <==>
      Sum(Amounts(allocations), Identity()) == declared <= MAX_MILLIMES
  {
    var amounts := Amounts(allocations);
    forall v | v in amounts ensures 0 < v <= Sum(amounts, Identity()) {
      var i :| 0 <= i < |amounts| && amounts[i] == v;
      assert allocations[i] in allocations;
      assert forall x | x in amounts :: Identity()(x) >= 0;
      SumAtLeast(amounts, Identity(), i);
    }
    assert forall x | x in amounts :: Identity()(x) >= 0;
    SumNonNegative(amounts, Identity());
  }

  /** What recording asks of the collection, its order and its delivery. */
  predicate CanRecord(k: Collection, o: Order, d: Delivery, input: RecordInput, partialEnabled: bool) {
    && k.status == Expected && o.version == input.orderVersion && d.version == input.deliveryVersion
    && k.expected == o.expectedCod && (o.payment == PaymentPending || o.payment == CashExpected)
    && o.stage == d.stage == (if o.pickup then ReadyForPickup else OutForDelivery)
    && 0 < input.collected && ValidAmount(input.collected) && ValidAmount(k.expected)
    && (input.collected < k.expected ==> partialEnabled)
    && (input.collected != k.expected ==> Explained(input.reasonCode, input.reasonDetail))
    && (!o.pickup ==> d.courier.Some? && (k.courier.Some? ==> k.courier == d.courier))
  }

  /** A collection can be recorded exactly when it is expected, both versions are current, order and
      delivery are where the cash is handed over, the amount is in range, and a difference is allowed
      and explained. The guards on the delivery's order, on the transition and on a second key never
      cause a refusal. */
  lemma RecordSucceeds(l: Ledger, c: nat, input: RecordInput, key: RecordKey, user: nat, partialEnabled: bool)
    requires Reachable(l)
    ensures Record(l, c, input, key, user, partialEnabled).1 == Done <==>
      c < |l.collections| && l.collections[c].delivery.Some? &&
        var k := l.collections[c];
        CanRecord(k, l.orders[k.order], l.deliveries[k.delivery.value], input, partialEnabled)
    ensures var answer := Record(l, c, input, key, user, partialEnabled).1;
      && answer != Refused(CollectionTransitionNotAllowed)
      && (answer == Refused(CollectionLinkageInvalid) ==>
            l.collections[c].expected != l.orders[l.collections[c].order].expectedCod)
  {
    ReachableInv(l);
    if c < |l.collections| { assert RowOkAt(l, c); }
  }

  /** What the allocations of a request add up to. */
  function AskedFor(allocations: seq<Allocation>): int { Sum(allocations, (a: Allocation) => a.amount) }

  lemma {:induction false} AskedForIs(allocations: seq<Allocation>)
    ensures AskedFor(allocations) == Sum(Amounts(allocations), Identity())
  {
    if allocations != [] {
      var n := |allocations| - 1;
      AskedForIs(allocations[..n]);
      assert Amounts(allocations)[..n] == Amounts(allocations[..n]);
    }
  }

  /** A remittance can be created exactly when its allocations are distinct, positive and sum to the
      declared amount, its courier is active, its number is new, and each allocation fits in what
      its collection still answers for to that courier. */
  lemma CreateSucceeds(l: Ledger, input: CreateInput)
    requires Reachable(l)
    ensures Create(l, input).1 == Done <==>
      && (forall i, j | 0 <= i < j < |input.allocations| ::
            input.allocations[i].collection != input.allocations[j].collection)
      && input.allocations != []
      && (forall a | a in input.allocations ::
        a.amount > 0 && a.collection < |l.collections| && CanDraw(l, input.courier, a))
      && AskedFor(input.allocations) == input.declared <= 2_000_000_000
      && input.courier in l.activeCouriers && (forall m | m in l.remittances :: m.number != input.number)
  {
    ReachableInv(l);
    if Distinct(input.allocations) && forall a | a in input.allocations :: a.amount > 0 {
      DeclaredTotal(input.allocations, input.declared);
      AskedForIs(input.allocations);
      NoAllocationError(l, input, 0);
      forall a | a in input.allocations && a.collection < |l.collections|
        ensures AllocationError(l, input.courier, a.collection, a.amount) == None <==> CanDraw(l, input.courier, a)
      {
        AllocationErrorIs(l, input.courier, a);
      }
    }
  }

  /** Submitting succeeds exactly on a draft. */
  lemma SubmitSucceeds(l: Ledger, r: nat, user: nat)
    requires Reachable(l)
    ensures Submit(l, r, user).1 == Done <==> r < |l.remittances| && l.remittances[r].status == Draft
  {
    ReachableInv(l);
    if r < |l.remittances| {
      assert RemittanceOk(l.remittances[r], Sum(l.items, OfRemittance(r)));
      TotalIs(l, r);
    }
  }

  /** Reconciling succeeds exactly on a submitted remittance, for an independent actor, with a
      valid amount and a reason when the amount differs. None of the total, collection-state,
      over-allocation, linkage or remittance-state guards is ever the cause of a refusal. */
  lemma ReconcileSucceeds(l: Ledger, r: nat, user: nat, verified: int, code: Option<string>, detail: Option<string>)
    requires Reachable(l)
    ensures Reconcile(l, r, user, verified, code, detail).1 == Done <==>
      && r < |l.remittances| && l.remittances[r].status == Submitted && l.remittances[r].receivedBy != Some(user)
      && ValidAmount(verified) && (verified != l.remittances[r].declared ==> Explained(code, detail))
    ensures Reconcile(l, r, user, verified, code, detail).1.Refused? ==>
      Reconcile(l, r, user, verified, code, detail).1.error in
        {RemittanceNotFound, ReconciliationNotAllowed, SeparateApproverRequired, InvalidMillimes,
          DiscrepancyReasonRequired}
  {
    ReachableInv(l);
    if r < |l.remittances| {
      var m := l.remittances[r];
      assert RemittanceOk(m, Sum(l.items, OfRemittance(r)));
      TotalIs(l, r);
      if m.status != Verified { PendingRemittable(l, r); }
      if ReconcileCheck(l, r, user, verified, code, detail) == Done && verified == m.declared {
        ApplyVerifiedSucceeds(l, l.(remittances := l.remittances[r := ReconciledRow(m, user, verified)]), r);
      }
    }
  }

  /** Resolving a remittance discrepancy succeeds exactly on the open one, for an actor who neither
      received nor opened it, with the declared amount, or with no amount for a write-off. */
  lemma ResolveRemittanceSucceeds(l: Ledger, r: nat, i: nat, user: nat, how: Resolution)
    requires Reachable(l)
    ensures ResolveRemittance(l, r, i, user, how).1 == Done <==>
      && r < |l.remittances| && i < |l.remittances[r].discrepancies|
      && l.remittances[r].discrepancies[i].status == Open
      && l.remittances[r].discrepancies[i].openedBy != user && l.remittances[r].receivedBy != Some(user)
      && how.finalVerified == (if how.ExactCount? then Some(l.remittances[r].declared) else None)
    ensures ResolveRemittance(l, r, i, user, how).1.Refused? ==>
      ResolveRemittance(l, r, i, user, how).1.error in
        {DiscrepancyNotFound, ResolutionNotAllowed, SeparateApproverRequired, FinalAmountInvalid,
          FinalAmountNotApplicable}
  {
    ReachableInv(l);
    if r < |l.remittances| {
      assert RemittanceOk(l.remittances[r], Sum(l.items, OfRemittance(r)));
      if ResolveRemittanceCheck(l, r, i, user, how) == Done && how.ExactCount? {
        assert Verifying(l, l, r);
        ApplyVerifiedSucceeds(l, l, r);
      }
    }
  }

  /** Resolving a collection discrepancy succeeds exactly while it is open, for an actor who neither
      opened it nor collected the cash, with no amount for a write-off, or with the expected amount
      as long as the first other live collection of the order has an amount the ledger accepts. */
  lemma ResolveCollectionSucceeds(l: Ledger, c: nat, user: nat, how: Resolution)
    requires Reachable(l)
    ensures ResolveCollection(l, c, user, how).1 == Done <==>
      && c < |l.collections| && l.collections[c].discrepancy.Some?
      && l.collections[c].discrepancy.value.status == Open
      && l.collections[c].discrepancy.value.openedBy != user && l.collections[c].collectedBy != Some(user)
      && how.finalVerified == (if how.ExactCount? then Some(l.collections[c].expected) else None)
      && (how.ExactCount? ==> !AmountBlocks(l, c, |l.collections|))
  {
    ReachableInv(l);
    if c < |l.collections| && l.collections[c].discrepancy.Some? {
      assert RowOkAt(l, c);
      ProjectionIs(l, c, |l.collections|);
      if l.collections[c].discrepancy.value.status == Open { UnresolvedUnallocated(l, c); }
    }
  }

  lemma UnresolvedUnallocated(l: Ledger, c: nat)
    requires Inv(l) && c < |l.collections| && l.collections[c].discrepancy.Some? &&
      l.collections[c].discrepancy.value.status == Open
    ensures forall it | it in l.items :: it.collection != c
  {
    assert RowOkAt(l, c);
    if it :| it in l.items && it.collection == c {
      var i :| 0 <= i < |l.items| && l.items[i] == it;
      AllocatedItem(l, i);
    }
  }

  /** A resolution is never refused for its linkage, its state, its order's payment status or an
      allocation, and for an amount out of range only when the first other live collection of the
      order blocks an exact count. */
  lemma ResolveCollectionRefusals(l: Ledger, c: nat, user: nat, how: Resolution)
    requires Reachable(l) && ResolveCollection(l, c, user, how).1.Refused?
    ensures ResolveCollection(l, c, user, how).1.error in
      {CollectionNotFound, DiscrepancyNotFound, ResolutionNotAllowed, SeparateApproverRequired,
       FinalAmountInvalid, FinalAmountNotApplicable, InvalidMillimes}
    ensures ResolveCollection(l, c, user, how).1 == Refused(InvalidMillimes) ==>
      how.ExactCount? && c < |l.collections| && AmountBlocks(l, c, |l.collections|)
  {
    ReachableInv(l);
    if c < |l.collections| && l.collections[c].discrepancy.Some? {
      assert RowOkAt(l, c);
      ProjectionIs(l, c, |l.collections|);
      if l.collections[c].discrepancy.value.status == Open { UnresolvedUnallocated(l, c); }
    }
  }

  /** A resolution by exact count returns the order to its collected payment status exactly when
      every other collection of the order has been voided; otherwise the order stays discrepant. */
  lemma ResolutionClearsOrder(l: Ledger, c: nat, user: nat, how: Resolution)
    requires Reachable(l)
    requires how.ExactCount? && ResolveCollection(l, c, user, how).1 == Done
    ensures var o := l.collections[c].order; var l' := ResolveCollection(l, c, user, how).0;
      l'.orders[o].payment ==
        if StandsAlone(l, c) then CollectedPayment(l.orders[o].pickup) else ReconciliationDiscrepancy
  {
    ReachableInv(l);
    assert RowOkAt(l, c);
    ProjectionIs(l, c, |l.collections|);
    OthersVoided(l, c);
  }

  // Conservation.

  /** Every verified remittance has verified = declared = the sum of its allocations. */
  lemma VerifiedBalances(l: Ledger, r: nat)
    requires Reachable(l) && r < |l.remittances| && l.remittances[r].status == Verified
    ensures l.remittances[r].verified == Some(l.remittances[r].declared)
    ensures l.remittances[r].declared == Listed(l, r)
  {
    ReachableInv(l);
    ListedIs(l, r);
    assert RemittanceOk(l.remittances[r], Sum(l.items, OfRemittance(r)));
  }

  /** Over all remittances, in any status, a collection never promises more than it answers for,
      and it promises nothing while its discrepancy is unresolved. */
  lemma NeverOverAllocated(l: Ledger, c: nat)
    requires Reachable(l) && c < |l.collections|
    ensures Promised(l, c) > 0 ==>
      Undisputed(l.collections[c]) && Promised(l, c) <= AnswersFor(l.collections[c])
    ensures 0 <= Paid(l, c) <= Promised(l, c)
  {
    ReachableInv(l);
    SumsAre(l, c);
    assert RowOkAt(l, c);
  }

  /** A collection that answers for a positive amount is REMITTED exactly when its allocations in
      verified remittances reach that amount. */
  lemma RemittedExactly(l: Ledger, c: nat)
    requires Reachable(l) && c < |l.collections|
    requires l.collections[c].status != Expected && l.collections[c].status != Voided
    requires Undisputed(l.collections[c]) && AnswersFor(l.collections[c]) > 0
    ensures l.collections[c].status == Remitted <==> Paid(l, c) == AnswersFor(l.collections[c])
  {
    ReachableInv(l);
    SumsAre(l, c);
    assert RowOkAt(l, c);
  }

  /** An order is CASH_REMITTED only when its live collections are exactly one REMITTED collection,
      whose verified allocations are the order's expected cash. */
  lemma RemittedOrder(l: Ledger, o: nat) returns (c: nat)
    requires Inv(l) && o < |l.orders| && l.orders[o].payment == CashRemitted
    ensures c < |l.collections| && l.collections[c].order == o && l.collections[c].status == Remitted
    ensures VerifiedAllocated(l, c) == Paid(l, c) == l.orders[o].expectedCod
    ensures forall i | 0 <= i < |l.collections| && l.collections[i].order == o && i != c ::
      l.collections[i].status == Voided
  {
    assert OrderOk(l, o);
    c :| 0 <= c < |l.collections| && l.collections[c].order == o && Settles(l.collections[c], l.orders[o]);
    assert RowOkAt(l, c);
    SumsAre(l, c);
  }

  function RemittedCod(orders: seq<Order>): int {
    Sum(orders, (o: Order) => if o.payment == CashRemitted then o.expectedCod else 0)
  }

  function VerifiedTotal(remittances: seq<Remittance>): int {
    Sum(remittances, (m: Remittance) => if m.status == Verified then m.declared else 0)
  }

  /** The verified allocations whose collection belongs to one of the first n orders. */
  function VerifiedBelow(l: Ledger, n: nat): Item -> int {
    (it: Item) =>
      if it.collection < |l.collections| && l.collections[it.collection].order < n &&
        IsVerified(l.remittances, it.remittance)
      then it.amount else 0
  }

  function VerifiedOfFirst(l: Ledger, n: nat): Item -> int {
    (it: Item) => if it.remittance < n && IsVerified(l.remittances, it.remittance) then it.amount else 0
  }

  /** What one more order adds to the verified allocations below it. */
  lemma OrderAdds(l: Ledger, o: nat)
    requires Inv(l) && o < |l.orders|
    ensures Sum(l.items, VerifiedBelow(l, o)) +
      (if l.orders[o].payment == CashRemitted then l.orders[o].expectedCod else 0)
      <= Sum(l.items, VerifiedBelow(l, o + 1))
  {
    forall it | it in l.items ensures 0 <= VerifiedBelow(l, o)(it) <= VerifiedBelow(l, o + 1)(it) {
      assert ItemOk(l, it);
    }
    if l.orders[o].payment == CashRemitted {
      var c := RemittedOrder(l, o);
      var both := (it: Item) => VerifiedBelow(l, o)(it) + VerifiedTo(l.remittances, c)(it);
      SumPlus(l.items, VerifiedBelow(l, o), VerifiedTo(l.remittances, c), both);
      SumLe(l.items, both, VerifiedBelow(l, o + 1));
    } else {
      SumLe(l.items, VerifiedBelow(l, o), VerifiedBelow(l, o + 1));
    }
  }

  lemma {:induction false} OrdersBelow(l: Ledger, n: nat)
    requires Inv(l) && n <= |l.orders|
    ensures RemittedCod(l.orders[..n]) <= Sum(l.items, VerifiedBelow(l, n))
  {
    if n == 0 {
      NoItems(l, VerifiedBelow(l, 0));
    } else {
      OrdersBelow(l, n - 1);
      assert l.orders[..n][..n - 1] == l.orders[..n - 1];
      OrderAdds(l, n - 1);
    }
  }

  lemma {:induction false} RemittancesBelow(l: Ledger, n: nat)
    requires Inv(l) && n <= |l.remittances|
    ensures VerifiedTotal(l.remittances[..n]) == Sum(l.items, VerifiedOfFirst(l, n))
  {
    if n == 0 {
      NoItems(l, VerifiedOfFirst(l, 0));
    } else {
      var r := n - 1;
      RemittancesBelow(l, r);
      assert l.remittances[..n][..r] == l.remittances[..r];
      if l.remittances[r].status == Verified {
        assert RemittanceOk(l.remittances[r], Sum(l.items, OfRemittance(r)));
        SumPlus(l.items, VerifiedOfFirst(l, r), OfRemittance(r), VerifiedOfFirst(l, n));
      } else {
        SumEq(l.items, VerifiedOfFirst(l, n), VerifiedOfFirst(l, r));
      }
    }
  }

  /** The expected cash of all CASH_REMITTED orders never exceeds the verified remittances. */
  lemma CashConservation(l: Ledger)
    requires Reachable(l)
    ensures RemittedCod(l.orders) <= VerifiedTotal(l.remittances)
  {
    ReachableInv(l);
    OrdersBelow(l, |l.orders|);
    RemittancesBelow(l, |l.remittances|);
    assert l.orders[..|l.orders|] == l.orders && l.remittances[..|l.remittances|] == l.remittances;
    forall it | it in l.items ensures VerifiedBelow(l, |l.orders|)(it) == VerifiedOfFirst(l, |l.remittances|)(it) {}
    SumEq(l.items, VerifiedBelow(l, |l.orders|), VerifiedOfFirst(l, |l.remittances|));
  }

  // What is final.

  /** The parts of a ledger that no transaction ever takes back. */
  predicate Extends(l: Ledger, l': Ledger) {
    && |l.orders| <= |l'.orders| && |l.collections| <= |l'.collections| && |l.remittances| <= |l'.remittances|
    && l.items <= l'.items
    && (forall o | 0 <= o < |l.orders| ::
          && l'.orders[o].expectedCod == l.orders[o].expectedCod
          && (l.orders[o].payment == CashRemitted ==> l'.orders[o].payment == CashRemitted))
    && (forall c | 0 <= c < |l.collections| :: CollectionExtends(l.collections[c], l'.collections[c]))
    && (forall r | 0 <= r < |l.remittances| && l.remittances[r].status == Verified ::
      l'.remittances[r] == l.remittances[r])
  }

  predicate CollectionExtends(k: Collection, k': Collection) {
    && k'.order == k.order && k'.expected == k.expected
    && (Recorded(k) ==> Recorded(k') && k'.collected == k.collected)
    && (Recorded(k) ==> k'.recordKey == k.recordKey && k'.recordRequest == k.recordRequest)
    && (Recorded(k) && Settled(k) ==> k'.discrepancy == k.discrepancy)
    && (k.status == Remitted ==> k' == k)
    && (k.status == Voided ==> k' == k)
  }

  lemma AppliedExtends(l: Ledger, b: Ledger, r: nat, row: Remittance)
    requires Verifying(l, b, r) && WellFormed(b)
    ensures Extends(l, Applied(b, r, row))
  {
    forall c | 0 <= c < |l.collections| ensures CollectionExtends(l.collections[c], MarkRemitted(b, r)[c]) {
      MarkedRow(l, b, r, c);
      assert RowOkAt(l, c);
    }
  }

  lemma FlagExtends(l: Ledger, r: nat, row: Remittance)
    requires Inv(l) && r < |l.remittances| && l.remittances[r].status != Verified
    ensures Extends(l, l.(remittances := l.remittances[r := row], orders := FlagOrders(l, r)))
  {
    FlagInv(l, r);
    forall c | 0 <= c < |l.collections| ensures CollectionExtends(l.collections[c], l.collections[c]) {}
  }

  lemma RecordExtends(l: Ledger, c: nat, input: RecordInput, key: RecordKey, user: nat, partialEnabled: bool, i: nat)
    requires Inv(l) && i < |l.collections|
    ensures i < |Record(l, c, input, key, user, partialEnabled).0.collections|
    ensures CollectionExtends(l.collections[i], Record(l, c, input, key, user, partialEnabled).0.collections[i])
  {
    assert RowOkAt(l, i);
  }

  lemma ResolveExtends(l: Ledger, c: nat, user: nat, how: Resolution, i: nat)
    requires Inv(l) && i < |l.collections|
    ensures i < |ResolveCollection(l, c, user, how).0.collections|
    ensures CollectionExtends(l.collections[i], ResolveCollection(l, c, user, how).0.collections[i])
  {
    assert RowOkAt(l, i);
  }

  lemma SimpleCollection(l: Ledger, s: Step, c: nat)
    requires Inv(l) && !s.ReconcileStep? && !s.ResolveRemittanceStep? && c < |l.collections|
    ensures c < |Apply(l, s).0.collections|
    ensures CollectionExtends(l.collections[c], Apply(l, s).0.collections[c])
  {
    match s
    case RecordStep(i, input, key, user, partialEnabled) => RecordExtends(l, i, input, key, user, partialEnabled, c);
    case ResolveCollectionStep(i, user, how) => ResolveExtends(l, i, user, how, c);
    case _ =>
  }

  lemma OrderAmountKept(l: Ledger, s: Step, o: nat)
    requires Inv(l) && !s.ReconcileStep? && !s.ResolveRemittanceStep? && o < |l.orders|
    ensures o < |Apply(l, s).0.orders| && Apply(l, s).0.orders[o].expectedCod == l.orders[o].expectedCod
  {
  }

  lemma OrderStaysRemitted(l: Ledger, s: Step, o: nat)
    requires Inv(l) && !s.ReconcileStep? && !s.ResolveRemittanceStep? && o < |l.orders|
    requires o < |Apply(l, s).0.orders| && l.orders[o].payment == CashRemitted
    ensures Apply(l, s).0.orders[o].payment == CashRemitted
  {
    var c := RemittedOrder(l, o);
    assert RowOkAt(l, c);
  }

  lemma SimpleOrder(l: Ledger, s: Step, o: nat)
    requires Inv(l) && !s.ReconcileStep? && !s.ResolveRemittanceStep? && o < |l.orders|
    ensures o < |Apply(l, s).0.orders| && Apply(l, s).0.orders[o].expectedCod == l.orders[o].expectedCod
    ensures l.orders[o].payment == CashRemitted ==> Apply(l, s).0.orders[o].payment == CashRemitted
  {
    OrderAmountKept(l, s, o);
    if l.orders[o].payment == CashRemitted { OrderStaysRemitted(l, s, o); }
  }

  lemma SimpleRemittance(l: Ledger, s: Step, r: nat)
    requires Inv(l) && !s.ReconcileStep? && !s.ResolveRemittanceStep? && r < |l.remittances|
    ensures r < |Apply(l, s).0.remittances| && l.items <= Apply(l, s).0.items
    ensures l.remittances[r].status == Verified ==> Apply(l, s).0.remittances[r] == l.remittances[r]
  {}

  lemma SimpleExtends(l: Ledger, s: Step)
    requires Inv(l) && !s.ReconcileStep? && !s.ResolveRemittanceStep?
    ensures Extends(l, Apply(l, s).0)
  {
    var l' := Apply(l, s).0;
    forall c | 0 <= c < |l.collections|
      ensures c < |l'.collections| && CollectionExtends(l.collections[c], l'.collections[c])
    {
      SimpleCollection(l, s, c);
    }
    forall o | 0 <= o < |l.orders|
      ensures o < |l'.orders| && l'.orders[o].expectedCod == l.orders[o].expectedCod
      ensures l.orders[o].payment == CashRemitted ==> l'.orders[o].payment == CashRemitted
    {
      SimpleOrder(l, s, o);
    }
    forall r | 0 <= r < |l.remittances|
      ensures r < |l'.remittances| && (l.remittances[r].status == Verified ==> l'.remittances[r] == l.remittances[r])
    {
      SimpleRemittance(l, s, r);
    }
  }

  lemma StepExtends(l: Ledger, s: Step)
    requires Inv(l)
    ensures Extends(l, Apply(l, s).0)
  {
    match s
    case ReconcileStep(r, user, verified, code, detail) =>
      if ReconcileCheck(l, r, user, verified, code, detail) == Done {
        var row := ReconciledRow(l.remittances[r], user, verified);
        var b := l.(remittances := l.remittances[r := row]);
        if verified == l.remittances[r].declared {
          ApplyVerifiedSucceeds(l, b, r);
          AppliedExtends(l, b, r, row);
          assert b.remittances[r := row] == b.remittances;
        } else {
          FlagExtends(l, r, row);
        }
      } else {
        SelfExtends(l);
      }
    case ResolveRemittanceStep(r, i, user, how) =>
      if ResolveRemittanceCheck(l, r, i, user, how) == Done && how.ExactCount? {
        assert Verifying(l, l, r);
        ApplyVerifiedSucceeds(l, l, r);
        AppliedExtends(l, l, r, ResolvedRemittance(l.remittances[r], i, user, how));
      } else {
        SelfExtends(l);
      }
    case _ => SimpleExtends(l, s);
  }

  lemma SelfExtends(l: Ledger)
    ensures forall c | 0 <= c < |l.collections| :: CollectionExtends(l.collections[c], l.collections[c])
  {}

  /** Over any run: CASH_REMITTED is never left; a recorded collection keeps what it collected, and
      its discrepancy once settled; REMITTED and VOIDED rows and verified remittances never change;
      allocations are only added. */
  lemma {:induction false} RunExtends(l: Ledger, steps: seq<Step>)
    requires Inv(l)
    ensures Extends(l, Run(l, steps))
    decreases |steps|
  {
    if steps == [] {
      SelfExtends(l);
    } else {
      ApplyInv(l, steps[0]);
      StepExtends(l, steps[0]);
      RunExtends(Apply(l, steps[0]).0, steps[1..]);
    }
  }

  /** How a recorded collection answers a recording request. */
  predicate Answers(t: Ledger, r: (Ledger, Outcome), sameKey: bool, sameBody: bool) {
    && r.0 == t
    && (sameKey ==> r.1 == if sameBody then Replayed else Refused(IdempotencyKeyReused))
    && (!sameKey ==>
      r.1 in {Refused(VersionConflict), Refused(CollectionLinkageInvalid), Refused(CollectionAlreadyRecorded)})
  }

  lemma RecordedAnswers(t: Ledger, c: nat, input: RecordInput, key: RecordKey, user: nat, partialEnabled: bool)
    requires Inv(t) && c < |t.collections| && Recorded(t.collections[c])
    ensures var k := t.collections[c];
      Answers(t, Record(t, c, input, key, user, partialEnabled),
        k.recordKey == Some(key), k.recordRequest == Some(input))
  {
    assert RowOkAt(t, c);
  }

  /** A collection is recorded once: whatever happens later, the same key with the same body is
      answered from the row, the same key with another body is a conflict, any other key is
      refused, and none of them changes anything. */
  lemma RecordedOnce(l: Ledger, c: nat, input: RecordInput, key: RecordKey, user: nat, partialEnabled: bool,
    steps: seq<Step>,
                     input': RecordInput, key': RecordKey, user': nat, partialEnabled': bool)
    requires Inv(l) && Record(l, c, input, key, user, partialEnabled).1 == Done
    ensures var t := Run(l, [RecordStep(c, input, key, user, partialEnabled)] + steps);
      Answers(t, Record(t, c, input', key', user', partialEnabled'), key' == key, input' == input)
  {
    var s := Record(l, c, input, key, user, partialEnabled).0;
    RecordInv(l, c, input, key, user, partialEnabled);
    RunExtends(s, steps);
    var t := Run(s, steps);
    assert ([RecordStep(c, input, key, user, partialEnabled)] + steps)[1..] == steps;
    assert CollectionExtends(s.collections[c], t.collections[c]);
    RecordedAnswers(t, c, input', key', user', partialEnabled');
  }

  /** The accountable amount of a collection is fixed from its first allocation on. */
  lemma AccountableFrozen(l: Ledger, steps: seq<Step>, c: nat)
    requires Inv(l) && c < |l.collections| && Promised(l, c) > 0
    ensures c < |Run(l, steps).collections|
    ensures AnswersFor(Run(l, steps).collections[c]) == AnswersFor(l.collections[c]) &&
      Undisputed(Run(l, steps).collections[c])
  {
    SumsAre(l, c);
    assert RowOkAt(l, c);
    RunExtends(l, steps);
  }

  /** At most one collection of an order is ever recorded, in the course of any run. */
  lemma OneRecordedPerOrder(l: Ledger, steps: seq<Step>, c1: nat, c2: nat)
    requires Inv(l) && c1 < |l.collections| && c2 < |Run(l, steps).collections|
    requires Recorded(l.collections[c1]) && Recorded(Run(l, steps).collections[c2])
    requires l.collections[c1].order == Run(l, steps).collections[c2].order
    ensures c1 == c2
  {
    RunExtends(l, steps);
  }

  /** Once the discrepancy of a collection is written off, its order stays discrepant for ever
      and is never counted as remitted. */
  lemma WrittenOffForever(l: Ledger, steps: seq<Step>, c: nat)
    requires Inv(l) && c < |l.collections| && WrittenOffRow(l.collections[c])
    ensures l.collections[c].order < |Run(l, steps).orders|
    ensures Run(l, steps).orders[l.collections[c].order].payment == ReconciliationDiscrepancy
  {
    RunExtends(l, steps);
    assert RowOkAt(l, c) && RowOkAt(Run(l, steps), c);
  }
}
