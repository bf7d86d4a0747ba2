/** The invariant that every transaction of the cash service keeps. */
module CashInvariant {
  import opened Wrappers
  import opened Sums
  import opened CashTypes
  import opened CashLedger

  predicate Recorded(k: Collection) {
    k.status == Collected || k.status == PartiallyCollected || k.status == Remitted
  }

  predicate Settled(k: Collection) {
    k.discrepancy.None? || k.discrepancy.value.status == Resolved || k.discrepancy.value.status == WrittenOff
  }

  predicate WrittenOffRow(k: Collection) {
    k.discrepancy.Some? && k.discrepancy.value.status == WrittenOff
  }

  /** The accountable amount of a settled collection. */
  function Balance(k: Collection): int {
    if k.discrepancy.Some? && k.discrepancy.value.status == Resolved then k.expected else k.collected
  }

  predicate RecordedOk(k: Collection, o: Order, promised: int, verified: int) {
    && ValidMillimes(k.expected) && ValidMillimes(k.collected) && k.collected > 0
    && k.expected == o.expectedCod
    && k.delivery.Some? && k.collectedBy.Some? && k.recordKey.Some?
    && !Collectable(o.payment)
    && (k.discrepancy.None? <==> k.collected == k.expected)
    && (k.discrepancy.Some? ==>
          && Linkage(k, k.discrepancy.value, k.collected - k.expected)
          && k.discrepancy.value.status != Investigating
          && (k.discrepancy.value.status != Resolved ==> o.payment == ReconciliationDiscrepancy))
    && (!Settled(k) ==> promised == 0 && k.status != Remitted)
    && (Settled(k) ==> promised <= Balance(k))
    && (Settled(k) && Balance(k) > 0 ==> (k.status == Remitted <==> verified == Balance(k)))
    && (Balance(k) == 0 ==> k.status != Remitted)
    && (k.status == PartiallyCollected ==>
      k.collected < k.expected && k.discrepancy.Some? && k.discrepancy.value.status != Resolved)
  }

  /** What a collection row owes its order and the allocations made against it. */
  predicate RowOk(k: Collection, o: Order, promised: int, verified: int) {
    && 0 <= verified <= promised
    && (!Recorded(k) ==> k.collected == 0 && k.discrepancy.None? && k.recordKey.None? && promised == 0)
    && (Recorded(k) ==> RecordedOk(k, o, promised, verified))
  }

  predicate RowOkAt(l: Ledger, c: nat)
    requires WellFormed(l) && c < |l.collections|
  {
    RowOk(l.collections[c], l.orders[l.collections[c].order], Allocated(l, c), VerifiedAllocated(l, c))
  }

  predicate RowsOk(l: Ledger)
    requires WellFormed(l)
  {
    forall c | 0 <= c < |l.collections| :: RowOkAt(l, c)
  }

  /** At most one collection of an order has ever been recorded. */
  predicate Exclusive(l: Ledger) {
    forall c1, c2 | 0 <= c1 < |l.collections| && 0 <= c2 < |l.collections| && Recorded(l.collections[c1]) &&
      Recorded(l.collections[c2])
                    && l.collections[c1].order == l.collections[c2].order :: c1 == c2
  }

  predicate RemittanceOk(m: Remittance, total: int) {
    && m.declared == total && ValidMillimes(total)
    && (m.status == Draft || m.status == Submitted || m.status == Verified || m.status == InDiscrepancy)
    && (m.status == Draft || m.status == Submitted ==> m.discrepancies == [])
    && (m.status != Draft ==> m.receivedBy.Some?)
    && (m.status == Verified ==> m.verified == Some(m.declared) && m.difference == Some(0))
    && |m.discrepancies| <= 1
    && (m.status == InDiscrepancy ==> |m.discrepancies| == 1 && m.discrepancies[0].status in {Open, WrittenOff})
    && (m.status == Verified && m.discrepancies != [] ==> m.discrepancies[0].status == Resolved)
  }

  predicate RemittancesOk(l: Ledger) {
    forall r | 0 <= r < |l.remittances| :: RemittanceOk(l.remittances[r], Sum(l.items, OfRemittance(r)))
  }

  predicate ItemOk(l: Ledger, it: Item)
    requires WellFormed(l) && it in l.items
  {
    && 0 < it.amount <= MAX_MILLIMES
    && l.collections[it.collection].courier == Some(l.remittances[it.remittance].courier)
  }

  predicate ItemsOk(l: Ledger)
    requires WellFormed(l)
  {
    forall it | it in l.items :: ItemOk(l, it)
  }

  predicate DeliveriesOk(l: Ledger)
    requires WellFormed(l)
  {
    forall c | 0 <= c < |l.collections| && l.collections[c].delivery.Some? ::
      l.deliveries[l.collections[c].delivery.value].order == l.collections[c].order
  }

  /** Collection c is the remitted collection that settles its order. */
  predicate Settles(k: Collection, o: Order) {
    k.status == Remitted && Balance(k) == o.expectedCod
  }

  predicate OrderOk(l: Ledger, o: nat)
    requires o < |l.orders|
  {
    l.orders[o].payment == CashRemitted ==>
      && (exists c | 0 <= c < |l.collections| :: l.collections[c].order == o && Settles(l.collections[c], l.orders[o]))
      && (forall c | 0 <= c < |l.collections| && l.collections[c].order == o ::
            l.collections[c].status == Voided || l.collections[c].status == Remitted)
  }

  predicate OrdersOk(l: Ledger) {
    forall o | 0 <= o < |l.orders| :: OrderOk(l, o)
  }

  predicate Inv(l: Ledger) {
    && WellFormed(l)
    && RowsOk(l) && Exclusive(l) && RemittancesOk(l) && ItemsOk(l) && DeliveriesOk(l) && OrdersOk(l)
  }

  const EmptyLedger := Ledger([], [], [], [], [], {})

  // Facts about sums of allocations.

  /** What is allocated to c outside verified remittances and remittance r. */
  function PendingTo(remittances: seq<Remittance>, c: nat): Item -> int {
    (it: Item) => if it.collection == c && !IsVerified(remittances, it.remittance) then it.amount else 0
  }

  lemma SplitAllocated(l: Ledger, c: nat)
    ensures Allocated(l, c) == VerifiedAllocated(l, c) + Sum(l.items, PendingTo(l.remittances, c))
  {
    SumPlus(l.items, VerifiedTo(l.remittances, c), PendingTo(l.remittances, c), ToCollection(c));
  }

  lemma PendingItem(l: Ledger, i: nat)
    requires Inv(l) && i < |l.items| && !IsVerified(l.remittances, l.items[i].remittance)
    ensures var k := l.collections[l.items[i].collection]; Recorded(k) && Settled(k) && Remittable(k.status)
  {
    var c := l.items[i].collection;
    assert RowOkAt(l, c);
    SplitAllocated(l, c);
    assert ItemOk(l, l.items[i]);
    forall it | it in l.items ensures PendingTo(l.remittances, c)(it) >= 0 { assert ItemOk(l, it); }
    SumAtLeast(l.items, PendingTo(l.remittances, c), i);
  }

  lemma AllocatedItem(l: Ledger, i: nat)
    requires Inv(l) && i < |l.items|
    ensures Allocated(l, l.items[i].collection) > 0
    ensures var k := l.collections[l.items[i].collection]; Recorded(k) && Settled(k)
  {
    var c := l.items[i].collection;
    assert RowOkAt(l, c) && ItemOk(l, l.items[i]);
    forall it | it in l.items ensures ToCollection(c)(it) >= 0 { assert ItemOk(l, it); }
    SumAtLeast(l.items, ToCollection(c), i);
  }

  /** Without items there is nothing allocated. */
  lemma NoItems(l: Ledger, f: Item -> int)
    requires forall it | it in l.items :: f(it) == 0
    ensures Sum(l.items, f) == 0
  {
    SumEq(l.items, f, (it: Item) => 0);
    ZeroSum(l.items);
  }

  lemma {:induction false} ZeroSum(items: seq<Item>)
    ensures Sum(items, (it: Item) => 0) == 0
  {
    if items != [] { ZeroSum(items[..|items| - 1]); }
  }

  lemma VerifiedUnchanged(l: Ledger, remittances: seq<Remittance>, c: nat)
    requires forall it | it in l.items ::
      IsVerified(remittances, it.remittance) == IsVerified(l.remittances, it.remittance)
    ensures Sum(l.items, VerifiedTo(remittances, c)) == VerifiedAllocated(l, c)
  {
    SumEq(l.items, VerifiedTo(remittances, c), VerifiedTo(l.remittances, c));
  }

  lemma InvEmpty()
    ensures Inv(EmptyLedger)
  {}
}
