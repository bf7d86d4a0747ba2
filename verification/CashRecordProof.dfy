/** Recording, resolving, and the steps of the other services keep the invariant: none of them
    touches remittances or allocations. */
module CashRecordProof {
  import opened Wrappers
  import opened CashTypes
  import opened CashLedger
  import opened CashInvariant

  /** Row i of l' is sound against the allocations of l. */
  predicate RowKept(l: Ledger, l': Ledger, i: nat)
    requires WellFormed(l') && i < |l'.collections|
  {
    RowOk(l'.collections[i], l'.orders[l'.collections[i].order], Allocated(l, i), VerifiedAllocated(l, i))
  }

  predicate RowsKept(l: Ledger, l': Ledger)
    requires WellFormed(l')
  {
    forall i | 0 <= i < |l'.collections| :: RowKept(l, l', i)
  }

  /** l' has the remittances and allocations of l, and the couriers those depend on. */
  predicate SameAllocations(l: Ledger, l': Ledger)
    requires WellFormed(l)
  {
    && l'.items == l.items && l'.remittances == l.remittances && |l.collections| <= |l'.collections|
    && (forall c | 0 <= c < |l.collections| && Recorded(l.collections[c]) ::
      l'.collections[c].courier == l.collections[c].courier)
  }

  lemma TablesInv(l: Ledger, l': Ledger)
    requires Inv(l) && WellFormed(l') && SameAllocations(l, l') && RowsKept(l, l')
    requires Exclusive(l') && DeliveriesOk(l') && OrdersOk(l')
    ensures Inv(l')
  {
    forall i | 0 <= i < |l'.collections| ensures RowOkAt(l', i) {
      assert RowKept(l, l', i);
      assert Allocated(l', i) == Allocated(l, i) && VerifiedAllocated(l', i) == VerifiedAllocated(l, i);
    }
    forall it | it in l'.items ensures ItemOk(l', it) {
      assert ItemOk(l, it);
      var i :| 0 <= i < |l.items| && l.items[i] == it;
      AllocatedItem(l, i);
    }
  }

  /** An order whose own row and collections are kept stays settled. */
  lemma OrderKept(l: Ledger, l': Ledger, p: nat)
    requires p < |l.orders| && OrderOk(l, p) && p < |l'.orders| && |l.collections| <= |l'.collections|
    requires l'.orders[p].payment == CashRemitted ==>
      && l.orders[p].payment == CashRemitted && l'.orders[p].expectedCod == l.orders[p].expectedCod
      && (forall c | 0 <= c < |l.collections| && l.collections[c].order == p :: l'.collections[c] == l.collections[c])
      && (forall c | |l.collections| <= c < |l'.collections| :: l'.collections[c].order != p)
      && (forall c | 0 <= c < |l.collections| :: l'.collections[c].order == l.collections[c].order)
    ensures OrderOk(l', p)
  {
    if l'.orders[p].payment == CashRemitted {
      var w :| 0 <= w < |l.collections| && l.collections[w].order == p && Settles(l.collections[w], l.orders[p]);
      assert Settles(l'.collections[w], l'.orders[p]);
    }
  }

  // Recording.

  lemma RecordRow(l: Ledger, c: nat, input: RecordInput, key: RecordKey, user: nat, partialEnabled: bool, i: nat)
    requires Inv(l) && RecordCheck(l, c, input, key, partialEnabled) == Done && i < |l.collections|
    ensures WellFormed(Record(l, c, input, key, user, partialEnabled).0)
    ensures RowKept(l, Record(l, c, input, key, user, partialEnabled).0, i)
    ensures i != c && l.collections[i].order == l.collections[c].order ==> !Recorded(l.collections[i])
  {
    assert RowOkAt(l, c) && RowOkAt(l, i);
  }

  lemma RecordRows(l: Ledger, c: nat, input: RecordInput, key: RecordKey, user: nat, partialEnabled: bool)
    requires Inv(l) && RecordCheck(l, c, input, key, partialEnabled) == Done
    ensures var l' := Record(l, c, input, key, user, partialEnabled).0;
      WellFormed(l') && RowsKept(l, l') && Exclusive(l')
  {
    var l' := Record(l, c, input, key, user, partialEnabled).0;
    RecordRow(l, c, input, key, user, partialEnabled, c);
    forall i | 0 <= i < |l'.collections|
      ensures RowKept(l, l', i)
      ensures i != c && l.collections[i].order == l.collections[c].order ==> !Recorded(l.collections[i])
    {
      RecordRow(l, c, input, key, user, partialEnabled, i);
    }
  }

  lemma RecordOrders(l: Ledger, c: nat, input: RecordInput, key: RecordKey, user: nat, partialEnabled: bool)
    requires Inv(l) && RecordCheck(l, c, input, key, partialEnabled) == Done
    ensures OrdersOk(Record(l, c, input, key, user, partialEnabled).0)
  {
    var l' := Record(l, c, input, key, user, partialEnabled).0;
    forall p | 0 <= p < |l'.orders| ensures OrderOk(l', p) {
      assert OrderOk(l, p);
      OrderKept(l, l', p);
    }
  }

  lemma RecordInv(l: Ledger, c: nat, input: RecordInput, key: RecordKey, user: nat, partialEnabled: bool)
    requires Inv(l)
    ensures Inv(Record(l, c, input, key, user, partialEnabled).0)
  {
    if RecordCheck(l, c, input, key, partialEnabled) == Done {
      RecordRows(l, c, input, key, user, partialEnabled);
      RecordOrders(l, c, input, key, user, partialEnabled);
      TablesInv(l, Record(l, c, input, key, user, partialEnabled).0);
    }
  }

  // Placing an order.

  lemma PlaceOrderRows(l: Ledger, order: Order, amounts: seq<int>)
    requires Inv(l) && Collectable(order.payment)
    ensures var l' := PlaceOrder(l, order, amounts).0; WellFormed(l') && RowsKept(l, l')
  {
    var l' := PlaceOrder(l, order, amounts).0;
    assert WellFormed(l');
    forall i | 0 <= i < |l'.collections| ensures RowKept(l, l', i) {
      if i < |l.collections| {
        assert RowOkAt(l, i);
      } else {
        NoItems(l, ToCollection(i));
        NoItems(l, VerifiedTo(l.remittances, i));
      }
    }
  }

  lemma PlaceOrderOrders(l: Ledger, order: Order, amounts: seq<int>)
    requires Inv(l) && Collectable(order.payment)
    ensures OrdersOk(PlaceOrder(l, order, amounts).0)
  {
    var l' := PlaceOrder(l, order, amounts).0;
    forall p | 0 <= p < |l'.orders| ensures OrderOk(l', p) {
      if p < |l.orders| {
        assert OrderOk(l, p);
        OrderKept(l, l', p);
      }
    }
  }

  lemma PlaceOrderInv(l: Ledger, order: Order, amounts: seq<int>)
    requires Inv(l)
    ensures Inv(PlaceOrder(l, order, amounts).0)
  {
    if Collectable(order.payment) {
      PlaceOrderRows(l, order, amounts);
      PlaceOrderOrders(l, order, amounts);
      TablesInv(l, PlaceOrder(l, order, amounts).0);
    }
  }

  // Moving a delivery.

  lemma MoveDeliveryInv(l: Ledger, d: nat, orderStage: Stage, stage: Stage, courier: Option<nat>)
    requires Inv(l)
    ensures Inv(MoveDelivery(l, d, orderStage, stage, courier).0)
  {
    var (l', outcome) := MoveDelivery(l, d, orderStage, stage, courier);
    if outcome == Done {
      forall i | 0 <= i < |l'.collections| ensures RowKept(l, l', i) { assert RowOkAt(l, i); }
      forall p | 0 <= p < |l'.orders| ensures OrderOk(l', p) {
        assert OrderOk(l, p);
        OrderKept(l, l', p);
      }
      TablesInv(l, l');
    }
  }

  // Cancelling an order.

  lemma CancelOrderRows(l: Ledger, o: nat)
    requires Inv(l) && CancelOrder(l, o).1 == Done
    ensures var l' := CancelOrder(l, o).0; WellFormed(l') && RowsKept(l, l')
    ensures forall c | 0 <= c < |l.collections| ::
      Recorded(CancelOrder(l, o).0.collections[c]) == Recorded(l.collections[c])
  {
    var l' := CancelOrder(l, o).0;
    assert WellFormed(l');
    forall i | 0 <= i < |l'.collections| ensures RowKept(l, l', i) {
      assert RowOkAt(l, i);
      assert l.collections[i] in l.collections;
    }
  }

  lemma CancelOrderOrders(l: Ledger, o: nat)
    requires Inv(l) && CancelOrder(l, o).1 == Done
    ensures OrdersOk(CancelOrder(l, o).0)
  {
    var l' := CancelOrder(l, o).0;
    forall p | 0 <= p < |l'.orders| ensures OrderOk(l', p) {
      assert OrderOk(l, p);
      OrderKept(l, l', p);
    }
  }

  lemma CancelOrderInv(l: Ledger, o: nat)
    requires Inv(l)
    ensures Inv(CancelOrder(l, o).0)
  {
    if CancelOrder(l, o).1 == Done {
      CancelOrderRows(l, o);
      CancelOrderOrders(l, o);
      TablesInv(l, CancelOrder(l, o).0);
    }
  }

  // Resolving a collection discrepancy.

  /** The resolved row itself, whatever its order's collected status becomes. */
  lemma ResolvedRowOk(k: Collection, o: Order, o': Order, user: nat, how: Resolution)
    requires k.discrepancy.Some? && k.discrepancy.value.status == Open && Remittable(k.status)
    requires RowOk(k, o, 0, 0)
    requires o' == o || (how.ExactCount? && o' == o.(payment := CollectedPayment(o.pickup), version := o.version + 1))
    ensures RowOk(ResolvedCollection(k, user, how), o', 0, 0)
  {}

  lemma UnresolvedRowOk(l: Ledger, c: nat, user: nat, how: Resolution)
    requires Inv(l) && ResolveCollectionCheck(l, c, user, how) == Done
    ensures RowOk(l.collections[c], l.orders[l.collections[c].order], 0, 0)
    ensures Allocated(l, c) == 0 == VerifiedAllocated(l, c)
  {
    assert RowOkAt(l, c);
    NoItems(l, ToCollection(c));
  }

  lemma ResolveOwnRow(l: Ledger, c: nat, user: nat, how: Resolution)
    requires Inv(l) && ResolveCollectionCheck(l, c, user, how) == Done
    ensures WellFormed(ResolveCollection(l, c, user, how).0)
    ensures RowKept(l, ResolveCollection(l, c, user, how).0, c)
  {
    UnresolvedRowOk(l, c, user, how);
    var k := l.collections[c];
    ResolvedRowOk(k, l.orders[k.order], ResolveCollection(l, c, user, how).0.orders[k.order], user, how);
  }

  lemma ResolveOtherRow(l: Ledger, c: nat, user: nat, how: Resolution, i: nat)
    requires Inv(l) && ResolveCollectionCheck(l, c, user, how) == Done && i < |l.collections| && i != c
    ensures WellFormed(ResolveCollection(l, c, user, how).0)
    ensures RowKept(l, ResolveCollection(l, c, user, how).0, i)
  {
    var l' := ResolveCollection(l, c, user, how).0;
    var k := l.collections[i];
    assert RowOkAt(l, i) && RowOkAt(l, c) && l'.collections[i] == k;
    assert Recorded(k) ==> k.order != l.collections[c].order && l'.orders[k.order] == l.orders[k.order];
  }

  lemma ResolveRows(l: Ledger, c: nat, user: nat, how: Resolution)
    requires Inv(l) && ResolveCollectionCheck(l, c, user, how) == Done
    ensures var l' := ResolveCollection(l, c, user, how).0; WellFormed(l') && RowsKept(l, l')
  {
    var l' := ResolveCollection(l, c, user, how).0;
    ResolveOwnRow(l, c, user, how);
    forall i | 0 <= i < |l'.collections| ensures RowKept(l, l', i) {
      if i != c { ResolveOtherRow(l, c, user, how, i); }
    }
  }

  lemma ResolveOrders(l: Ledger, c: nat, user: nat, how: Resolution)
    requires Inv(l) && ResolveCollectionCheck(l, c, user, how) == Done
    ensures OrdersOk(ResolveCollection(l, c, user, how).0)
  {
    var l' := ResolveCollection(l, c, user, how).0;
    forall p | 0 <= p < |l'.orders| ensures OrderOk(l', p) {
      assert OrderOk(l, p);
      OrderKept(l, l', p);
    }
  }

  lemma ResolveCollectionInv(l: Ledger, c: nat, user: nat, how: Resolution)
    requires Inv(l)
    ensures Inv(ResolveCollection(l, c, user, how).0)
  {
    if ResolveCollectionCheck(l, c, user, how) == Done {
      ResolveRows(l, c, user, how);
      ResolveOrders(l, c, user, how);
      TablesInv(l, ResolveCollection(l, c, user, how).0);
    }
  }
}
