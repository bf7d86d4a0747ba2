/** Two runs in which a partial collection is counted again: one in which it becomes COLLECTED against
    the transition table, and one in which another collection of its order makes the count fail. */
module CashDiscrepancyRuns {
  import opened Wrappers
  import opened CashTypes
  import opened CashLedger
  import opened CashInvariant
  import opened CashTheorems

  lemma {:induction false} RunAppend(l: Ledger, steps: seq<Step>, s: Step)
    requires Inv(l)
    ensures Run(l, steps + [s]) == Apply(Run(l, steps), s).0
    decreases |steps|
  {
    if steps == [] {
      ApplyInv(l, s);
      assert [s][1..] == [] && [] + [s] == [s];
    } else {
      ApplyInv(l, steps[0]);
      RunAppend(Apply(l, steps[0]).0, steps[1..], s);
      assert (steps + [s])[1..] == steps[1..] + [s];
    }
  }

  lemma EmptyReachable()
    ensures Reachable(EmptyLedger)
  {
    InvEmpty();
    assert Run(EmptyLedger, []) == EmptyLedger;
  }

  lemma Reach(l: Ledger, s: Step)
    requires Reachable(l)
    ensures Reachable(Apply(l, s).0)
  {
    InvEmpty();
    var steps: seq<Step> :| Run(EmptyLedger, steps) == l;
    RunAppend(EmptyLedger, steps, s);
    assert Run(EmptyLedger, steps + [s]) == Apply(l, s).0;
  }

  /** An order of 5 to be picked up. */
  const Pickup := Order(ReadyForPickup, CashExpected, 5, true, 1)

  const Short := RecordInput(4, 1, 1, Some("short"), Some("one missing"))

  const Key := RecordKey(0, "key")

  const Count := ExactCount(Some(5))

  lemma PickupRows(amounts: seq<int>)
    requires amounts != [] && amounts[0] == 5
    ensures var l := PlaceOrder(EmptyLedger, Pickup, amounts).0;
      && l.orders == [Pickup] && |l.collections| == |l.deliveries| == |amounts|
      && l.deliveries[0] == Delivery(0, ReadyForPickup, None, None, 1)
      && l.collections[0] == Collection(0, Some(0), None, Expected, 5, 0, None, None, None, None)
      && forall i | 0 < i < |amounts| ::
           l.collections[i].order == 0 && l.collections[i].status == Expected && l.collections[i].expected == amounts[i]
  {
  }

  /** The order is placed, with further collections of these amounts. */
  lemma PickupPlaced(others: seq<int>) returns (l: Ledger)
    ensures Reachable(l) && l == PlaceOrder(EmptyLedger, Pickup, [5] + others).0
  {
    EmptyReachable();
    var step := PlaceOrderStep(Pickup, [5] + others);
    Reach(EmptyLedger, step);
    l := Apply(EmptyLedger, step).0;
  }

  /** User 0 then takes 4 for the first. */
  lemma ShortCollection(others: seq<int>) returns (l: Ledger)
    ensures Reachable(l) && |l.collections| == 1 + |others|
    ensures var k := l.collections[0];
      && k.status == PartiallyCollected && k.expected == 5 && k.collectedBy == Some(0)
      && k.discrepancy == Some(Discrepancy(Open, 5, 4, -1, 0, None))
    ensures forall i | 0 < i < |l.collections| ::
      l.collections[i].order == l.collections[0].order && l.collections[i].status == Expected &&
        l.collections[i].expected == others[i - 1]
  {
    var placed := PickupPlaced(others);
    PickupRows([5] + others);
    RecordSucceeds(placed, 0, Short, Key, 0, true);
    Reach(placed, RecordStep(0, Short, Key, 0, true));
    l := Apply(placed, RecordStep(0, Short, Key, 0, true)).0;
    assert forall i | 0 < i < |l.collections| :: l.collections[i] == placed.collections[i];
  }

  /** A partial collection becomes COLLECTED by an exact count, although the transition table has no
      such entry. */
  lemma PartialBecomesCollected() returns (l: Ledger)
    ensures Reachable(l) && |l.collections| == 1 && l.collections[0].status == PartiallyCollected
    ensures var after := ResolveCollection(l, 0, 1, Count);
      after.1 == Done && |after.0.collections| == 1 && after.0.collections[0].status == Collected
    ensures !CanTransitionCollection(PartiallyCollected, Collected)
  {
    l := ShortCollection([]);
    ResolveCollectionSucceeds(l, 0, 1, Count);
  }

  /** With another live collection of an amount out of range the same count is refused. */
  lemma AmountStopsCount() returns (l: Ledger)
    ensures Reachable(l) && |l.collections| == 2 && l.collections[1].expected == MAX_MILLIMES + 1
    ensures ResolveCollection(l, 0, 1, Count).1 == Refused(InvalidMillimes)
  {
    l := ShortCollection([MAX_MILLIMES + 1]);
    assert OtherLive(l, 0, 1) && !OtherLive(l, 0, 0) && AmountBlocks(l, 0, 2);
    ReachableInv(l);
    assert RowOkAt(l, 0);
    ProjectionIs(l, 0, 2);
    UnresolvedUnallocated(l, 0);
  }
}
