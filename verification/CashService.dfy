/** The cash service as it runs: tables updated row by row inside a transaction, with the maps and
    running totals it fills in loops, and a rollback when a step is refused half way. */
module CashService {
  import opened Wrappers
  import opened Sums
  import opened CashTypes
  import opened CashLedger
  import opened CashInvariant
  import opened CashTheorems

  function Lookup(m: map<nat, int>, c: nat): int { if c in m then m[c] else 0 }

  predicate VisitedItem(items: seq<Item>, r: nat, c: nat, upto: nat)
    requires upto <= |items|
  {
    exists j | 0 <= j < upto :: items[j].remittance == r && items[j].collection == c
  }

  predicate VisitedOrder(l: Ledger, r: nat, o: nat, upto: nat)
    requires WellFormed(l) && upto <= |l.items|
  {
    exists j | 0 <= j < upto :: l.items[j].remittance == r && l.collections[l.items[j].collection].order == o
  }

  lemma VisitedNext(l: Ledger, r: nat, upto: nat)
    requires WellFormed(l) && upto < |l.items|
    ensures forall o: nat :: VisitedOrder(l, r, o, upto + 1) <==>
      VisitedOrder(l, r, o, upto) ||
        (l.items[upto].remittance == r && l.collections[l.items[upto].collection].order == o)
    ensures forall c: nat :: VisitedItem(l.items, r, c, upto + 1) <==>
      VisitedItem(l.items, r, c, upto) || (l.items[upto].remittance == r && l.items[upto].collection == c)
  {
    forall o: nat | VisitedOrder(l, r, o, upto + 1) && !VisitedOrder(l, r, o, upto)
      ensures l.items[upto].remittance == r && l.collections[l.items[upto].collection].order == o
    {
      var j :| 0 <= j < upto + 1 && l.items[j].remittance == r && l.collections[l.items[j].collection].order == o;
    }
    forall c: nat | VisitedItem(l.items, r, c, upto + 1) && !VisitedItem(l.items, r, c, upto)
      ensures l.items[upto].remittance == r && l.items[upto].collection == c
    {
      var j :| 0 <= j < upto + 1 && l.items[j].remittance == r && l.items[j].collection == c;
    }
    forall c: nat | VisitedItem(l.items, r, c, upto) ensures VisitedItem(l.items, r, c, upto + 1) {
      var j :| 0 <= j < upto && l.items[j].remittance == r && l.items[j].collection == c;
    }
    if l.items[upto].remittance == r {
      assert VisitedItem(l.items, r, l.items[upto].collection, upto + 1);
      assert VisitedOrder(l, r, l.collections[l.items[upto].collection].order, upto + 1);
    }
  }

  lemma VisitedAll(l: Ledger, r: nat)
    requires WellFormed(l)
    ensures forall o: nat :: VisitedOrder(l, r, o, |l.items|) <==> Touches(l, r, o)
    ensures forall c: nat :: VisitedItem(l.items, r, c, |l.items|) <==> HasItem(l, r, c)
  {
    forall o: nat | Touches(l, r, o) ensures VisitedOrder(l, r, o, |l.items|) {
      var it :| it in l.items && it.remittance == r && l.collections[it.collection].order == o;
      var i :| 0 <= i < |l.items| && l.items[i] == it;
    }
    forall c: nat | HasItem(l, r, c) ensures VisitedItem(l.items, r, c, |l.items|) {
      var it :| it in l.items && it.remittance == r && it.collection == c;
      var i :| 0 <= i < |l.items| && l.items[i] == it;
    }
  }

  function RemittedIf(k: Collection, reached: bool): Collection { if reached then k.(status := Remitted) else k }

  function SettledIf(o: Order, complete: bool): Order {
    if complete then o.(payment := CashRemitted, version := o.version + 1) else o
  }

  function FlaggedIf(o: Order, seen: bool): Order {
    if seen then o.(payment := ReconciliationDiscrepancy, version := o.version + 1) else o
  }

  /** Once the running total has stopped it stays stopped. */
  lemma {:induction false} StoppedProjection(l: Ledger, c: nat, i: nat, j: nat)
    requires c < |l.collections| && i <= j <= |l.collections|
    requires ProjectionTotal(l, c, i).Err? || ProjectionTotal(l, c, i) == Ok(None)
    ensures ProjectionTotal(l, c, j) == ProjectionTotal(l, c, i)
    decreases j
  {
    if i < j { StoppedProjection(l, c, i, j - 1); }
  }

  /** Which orders a remittance concerns does not depend on how its collections are marked. */
  lemma {:induction false} MarkingKeepsOrders(l: Ledger, cols: seq<Collection>, r: nat, i: nat)
    requires WellFormed(l) && |cols| == |l.collections| && i <= |l.items|
    requires forall c | 0 <= c < |cols| ::
      cols[c] == RemittedIf(l.collections[c], cols[c].status != l.collections[c].status)
    ensures WellFormed(l.(collections := cols))
    ensures FirstOrderError(l.(collections := cols), r, cols, i) == FirstOrderError(l, r, cols, i)
    ensures forall o :: Touches(l.(collections := cols), r, o) == Touches(l, r, o)
    decreases |l.items| - i
  {
    if i < |l.items| { MarkingKeepsOrders(l, cols, r, i + 1); }
  }

  class AdminCashService {
    var orders: seq<Order>
    var deliveries: seq<Delivery>
    var collections: seq<Collection>
    var remittances: seq<Remittance>
    var items: seq<Item>
    var activeCouriers: set<nat>

    function Tables(): Ledger
      reads this
    {
      Ledger(orders, deliveries, collections, remittances, items, activeCouriers)
    }

    ghost predicate Valid()
      reads this
    {
      Inv(Tables())
    }

    constructor ()
      ensures Valid() && Tables() == EmptyLedger
    {
      orders, deliveries, collections, remittances, items, activeCouriers := [], [], [], [], [], {};
      new;
      InvEmpty();
    }

    method Rollback(before: Ledger)
      modifies this
      ensures Tables() == before
    {
      orders, deliveries, collections := before.orders, before.deliveries, before.collections;
      remittances, items, activeCouriers := before.remittances, before.items, before.activeCouriers;
    }

    /** The guards of a recording request, in the order the service meets them. */
    method CheckRecording(c: nat, input: RecordInput, key: RecordKey, partialEnabled: bool) returns (outcome: Outcome)
      requires Valid()
      ensures outcome == RecordCheck(Tables(), c, input, key, partialEnabled)
    {
      if c >= |collections| || collections[c].delivery.None? { return Refused(CollectionNotFound); }
      var k := collections[c];
      var o, d := orders[k.order], deliveries[k.delivery.value];
      if k.recordKey.Some? {
        if k.recordKey.value == key && k.recordRequest == Some(input) { return Replayed; }
        if k.recordKey.value == key { return Refused(IdempotencyKeyReused); }
      }
      if o.version != input.orderVersion { return Refused(VersionConflict); }
      if d.version != input.deliveryVersion { return Refused(VersionConflict); }
      if d.order != k.order || k.expected != o.expectedCod { return Refused(CollectionLinkageInvalid); }
      if k.status != Expected { return Refused(CollectionAlreadyRecorded); }
      if o.stage != d.stage || !Collectable(o.payment) { return Refused(CollectionOrderStateInvalid); }
      var expectedStage := if o.pickup then ReadyForPickup else OutForDelivery;
      if d.stage != expectedStage { return Refused(CollectionDeliveryStateInvalid); }
      if input.collected <= 0 { return Refused(CollectedAmountInvalid); }
      var difference := CashDifference(k.expected, input.collected);
      if difference.Err? { return Refused(difference.error); }
      var isPartial := difference.value < 0;
      if isPartial && !partialEnabled { return Refused(PartialCollectionDisabled); }
      if difference.value != 0 && !ReasonGiven(input.reasonCode, input.reasonDetail) {
        return Refused(DiscrepancyReasonRequired);
      }
      if !CanTransitionCollection(k.status, if isPartial then PartiallyCollected else Collected) {
        return Refused(CollectionTransitionNotAllowed);
      }
      if !o.pickup && (d.courier.None? || (k.courier.Some? && k.courier != d.courier)) {
        return Refused(CollectionCourierRequired);
      }
      if k.recordKey.Some? { return Refused(VersionConflict); }
      return Done;
    }

    /** Records the cash of a delivery on its collection, its order and its delivery. */
    method WriteRecording(c: nat, input: RecordInput, key: RecordKey, user: nat, partialEnabled: bool)
      requires WellFormed(Tables()) && RecordCheck(Tables(), c, input, key, partialEnabled) == Done
      modifies this`collections, this`orders, this`deliveries
      ensures Tables() == Record(old(Tables()), c, input, key, user, partialEnabled).0
    {
      var k := collections[c];
      var o, d := orders[k.order], deliveries[k.delivery.value];
      var difference := input.collected - k.expected;
      collections := collections[c := RecordedRow(k, o, d, input, key, user)];
      var payment :=
        if difference != 0 then ReconciliationDiscrepancy
        else if o.pickup then CashCollectedAtStore else CashCollectedByCourier;
      orders := orders[k.order := o.(payment := payment, version := o.version + 1)];
      deliveries := deliveries[k.delivery.value := d.(
        cashCollected := Some(difference == 0), version := d.version + 1)];
    }

    method RecordCollection(c: nat, input: RecordInput, key: RecordKey, user: nat,
      partialEnabled: bool) returns (outcome: Outcome)
      requires Valid()
      modifies this
      ensures Valid() && (Tables(), outcome) == Record(old(Tables()), c, input, key, user, partialEnabled)
    {
      ApplyInv(Tables(), RecordStep(c, input, key, user, partialEnabled));
      outcome := CheckRecording(c, input, key, partialEnabled);
      if outcome == Done { WriteRecording(c, input, key, user, partialEnabled); }
    }

    /** The amount requested from each collection, as a map. */
    method RequestedAmounts(allocations: seq<Allocation>) returns (requested: map<nat, int>)
      ensures forall c: nat :: c in requested <==> Requested(allocations, c).Some?
      ensures forall c: nat | c in requested :: Requested(allocations, c) == Some(requested[c])
    {
      requested := map[];
      for i := 0 to |allocations|
        invariant forall c: nat :: c in requested <==> Requested(allocations[..i], c).Some?
        invariant forall c: nat | c in requested :: Requested(allocations[..i], c) == Some(requested[c])
      {
        requested := requested[allocations[i].collection := allocations[i].amount];
        assert allocations[..i + 1][..i] == allocations[..i];
      }
      assert allocations[..|allocations|] == allocations;
    }

    /** What is already allocated to each requested collection. */
    method AlreadyAllocated(wanted: set<nat>) returns (already: map<nat, int>)
      ensures forall c: nat | c in wanted :: Lookup(already, c) == Allocated(Tables(), c)
    {
      already := map[];
      for i := 0 to |items|
        invariant forall c: nat | c in wanted :: Lookup(already, c) == Sum(items[..i], ToCollection(c))
      {
        var it := items[i];
        if it.collection in wanted {
          already := already[it.collection := Lookup(already, it.collection) + it.amount];
        }
        assert items[..i + 1] == items[..i] + [it];
        forall c: nat | c in wanted
          ensures Sum(items[..i + 1], ToCollection(c)) == Sum(items[..i], ToCollection(c)) + ToCollection(c)(it)
        {
          SumAppend(items[..i], it, ToCollection(c));
        }
      }
      assert items[..|items|] == items;
    }

    method CheckAllocations(input: CreateInput) returns (error: Option<CashError>)
      ensures error == FirstAllocationError(Tables(), input, 0)
    {
      var requested := RequestedAmounts(input.allocations);
      var already := AlreadyAllocated(requested.Keys);
      for c := 0 to |collections|
        invariant FirstAllocationError(Tables(), input, 0) == FirstAllocationError(Tables(), input, c)
      {
        if c in requested {
          var k := collections[c];
          match Accountable(k) {
            case Err(e) => return Some(e);
            case Ok(accountable) =>
              if k.courier != Some(input.courier) || !Remittable(k.status) { return Some(CollectionNotRemittable); }
              if Lookup(already, c) + requested[c] > accountable { return Some(CollectionOverAllocated); }
          }
        }
      }
      return None;
    }

    method CreateRemittance(input: CreateInput) returns (outcome: Outcome)
      requires Valid()
      modifies this
      ensures Valid() && (Tables(), outcome) == Create(old(Tables()), input)
    {
      ApplyInv(Tables(), CreateStep(input));
      if !Distinct(input.allocations) { return Refused(DuplicateAllocation); }
      if exists a | a in input.allocations :: a.amount <= 0 { return Refused(AllocationInvalid); }
      match SumMillimes(Amounts(input.allocations)) {
        case Err(e) => return Refused(e);
        case Ok(total) => if total != input.declared { return Refused(RemittanceTotalMismatch); }
      }
      if exists a | a in input.allocations :: a.collection >= |collections| { return Refused(CollectionNotFound); }
      if input.allocations == [] { return Refused(EmptyAllocation); }
      if input.courier !in activeCouriers { return Refused(CourierUnavailable); }
      var error := CheckAllocations(input);
      if error.Some? { return Refused(error.value); }
      if exists m | m in remittances :: m.number == input.number { return Refused(RemittanceConflict); }
      items := items + NewItems(|remittances|, input.allocations);
      remittances := remittances +
        [Remittance(input.number, input.courier, Draft, input.declared, None, None, None, None, [])];
      return Done;
    }

    method SubmitRemittance(r: nat, user: nat) returns (outcome: Outcome)
      requires Valid()
      modifies this
      ensures Valid() && (Tables(), outcome) == Submit(old(Tables()), r, user)
    {
      ApplyInv(Tables(), SubmitStep(r, user));
      if r >= |remittances| { return Refused(RemittanceNotFound); }
      if !CanTransitionRemittance(remittances[r].status, Submitted) { return Refused(SubmissionNotAllowed); }
      match RemittanceTotal(Tables(), r) {
        case Err(e) => return Refused(e);
        case Ok(total) => if total != remittances[r].declared { return Refused(RemittanceTotalInvalid); }
      }
      outcome := Done;
      remittances := remittances[r := remittances[r].(status := Submitted, receivedBy := Some(user))];
    }

    /** What counts for each collection while remittance r is verified. */
    method AllocatedByCollection(r: nat) returns (counted: map<nat, int>)
      ensures forall c: nat | HasItem(Tables(), r, c) :: Lookup(counted, c) == Counted(Tables(), r, c)
    {
      var ids := set it | it in items && it.remittance == r :: it.collection;
      counted := map[];
      for i := 0 to |items|
        invariant forall c: nat | c in ids :: Lookup(counted, c) == Sum(items[..i], CountedFor(remittances, r, c))
      {
        var it := items[i];
        if it.collection in ids && (it.remittance == r || IsVerified(remittances, it.remittance)) {
          counted := counted[it.collection := Lookup(counted, it.collection) + it.amount];
        }
        assert items[..i + 1] == items[..i] + [it];
        forall c: nat | c in ids
          ensures Sum(items[..i + 1], CountedFor(remittances, r, c)) ==
            Sum(items[..i], CountedFor(remittances, r, c)) + CountedFor(remittances, r, c)(it)
        {
          SumAppend(items[..i], it, CountedFor(remittances, r, c));
        }
      }
      assert items[..|items|] == items;
    }

    /** Marks the collections of remittance r one item at a time. */
    method RemitCollections(r: nat) returns (error: Option<CashError>)
      requires WellFormed(Tables())
      modifies this`collections
      ensures error == FirstItemError(old(Tables()), r, 0)
      ensures error == None ==> collections == MarkRemitted(old(Tables()), r)
    {
      ghost var l := Tables();
      var snapshot := collections;
      var counted := AllocatedByCollection(r);
      for i := 0 to |items|
        invariant items == l.items && |collections| == |snapshot|
        invariant forall c: nat | HasItem(l, r, c) :: Lookup(counted, c) == Counted(l, r, c)
        invariant FirstItemError(l, r, 0) == FirstItemError(l, r, i)
        invariant forall c | 0 <= c < |snapshot| ::
          collections[c] == RemittedIf(snapshot[c], VisitedItem(l.items, r, c, i) && FullyCounted(l, r, c))
      {
        VisitedNext(l, r, i);
        var it := items[i];
        if it.remittance == r {
          var k := snapshot[it.collection];
          var total := Lookup(counted, it.collection);
          assert total == Counted(l, r, it.collection) by {
            assert it in l.items;
            assert HasItem(l, r, it.collection);
          }
          match Accountable(k) {
            case Err(e) => return Some(e);
            case Ok(accountable) =>
              if total > accountable { return Some(CollectionOverAllocated); }
              if total == accountable {
                if !CanTransitionCollection(k.status, Remitted) { return Some(CollectionRemittanceStateInvalid); }
                // The guarded update meets the row it read: an item appears once in a remittance.
                assert !VisitedItem(l.items, r, it.collection, i);
                assert collections[it.collection] == k;
                collections := collections[it.collection := RemittedIf(k, true)];
              }
          }
        }
      }
      VisitedAll(l, r);
      return None;
    }

    /** Marks the orders of remittance r whose live collections are all remitted, each once. */
    method RemitOrders(r: nat) returns (error: Option<CashError>)
      requires WellFormed(Tables())
      modifies this`orders
      ensures error == FirstOrderError(old(Tables()), r, old(collections), 0)
      ensures error == None ==> orders == MarkOrders(old(Tables()), r, collections)
    {
      ghost var l := Tables();
      var snapshot := orders;
      var seen: set<nat> := {};
      for i := 0 to |items|
        invariant items == l.items && collections == l.collections && |orders| == |snapshot|
        invariant FirstOrderError(l, r, l.collections, 0) == FirstOrderError(l, r, l.collections, i)
        invariant forall o: nat :: o in seen <==> VisitedOrder(l, r, o, i)
        invariant forall o | o in seen :: o < |snapshot| && FullyRemitted(l.collections, o, snapshot[o].expectedCod).Ok?
        invariant forall o | 0 <= o < |snapshot| ::
          orders[o] ==
            SettledIf(snapshot[o], o in seen && FullyRemitted(l.collections, o, snapshot[o].expectedCod) == Ok(true))
      {
        VisitedNext(l, r, i);
        var it := items[i];
        var o := collections[it.collection].order;
        if it.remittance == r && o !in seen {
          var complete := FullyRemitted(collections, o, snapshot[o].expectedCod);
          if complete.Err? { return Some(complete.error); }
          if complete.value { orders := orders[o := SettledIf(snapshot[o], true)]; }
          seen := seen + {o};
        }
      }
      VisitedAll(l, r);
      return None;
    }

    method ApplyVerifiedAllocations(r: nat) returns (error: Option<CashError>)
      requires WellFormed(Tables())
      modifies this`collections, this`orders
      ensures match ApplyVerified(old(Tables()), r)
        case Ok(l') => error == None && Tables() == l'
        case Err(e) => error == Some(e)
    {
      ghost var l := Tables();
      error := RemitCollections(r);
      if error == None {
        MarkingKeepsOrders(l, collections, r, 0);
        error := RemitOrders(r);
        assert error == None ==> orders == MarkOrders(l, r, collections);
      }
    }

    /** Flags every order of remittance r as discrepant, each once. */
    method FlagRemittanceOrders(r: nat)
      requires WellFormed(Tables())
      modifies this`orders
      ensures orders == FlagOrders(old(Tables()), r)
    {
      ghost var l := Tables();
      var snapshot := orders;
      var seen: set<nat> := {};
      for i := 0 to |items|
        invariant items == l.items && collections == l.collections && |orders| == |snapshot|
        invariant forall o: nat :: o in seen <==> VisitedOrder(l, r, o, i)
        invariant forall o | 0 <= o < |snapshot| :: orders[o] == FlaggedIf(snapshot[o], o in seen)
      {
        VisitedNext(l, r, i);
        var o := collections[items[i].collection].order;
        if items[i].remittance == r && o !in seen {
          orders := orders[o := FlaggedIf(snapshot[o], true)];
          seen := seen + {o};
        }
      }
      VisitedAll(l, r);
    }

    /** The guards of a reconciliation, in order. */
    method CheckReconciling(r: nat, user: nat, verified: int, code: Option<string>,
      detail: Option<string>) returns (outcome: Outcome)
      requires Valid()
      ensures outcome == ReconcileCheck(Tables(), r, user, verified, code, detail)
    {
      if r >= |remittances| { return Refused(RemittanceNotFound); }
      var m := remittances[r];
      if !CanTransitionRemittance(m.status, Verified) { return Refused(ReconciliationNotAllowed); }
      if m.receivedBy.None? || m.receivedBy == Some(user) { return Refused(SeparateApproverRequired); }
      match RemittanceTotal(Tables(), r) {
        case Err(e) => return Refused(e);
        case Ok(total) => if total != m.declared { return Refused(RemittanceTotalInvalid); }
      }
      if !ItemsRemittable(Tables(), r) { return Refused(RemittanceCollectionStateInvalid); }
      var difference := CashDifference(m.declared, verified);
      if difference.Err? { return Refused(difference.error); }
      if difference.value != 0 && !ReasonGiven(code, detail) { return Refused(DiscrepancyReasonRequired); }
      var target := if difference.value == 0 then Verified else InDiscrepancy;
      if !CanTransitionRemittance(m.status, target) { return Refused(ReconciliationNotAllowed); }
      if m.status != Submitted { return Refused(ReconciliationNotAllowed); }
      return Done;
    }

    method ReconcileRemittance(r: nat, user: nat, verified: int, code: Option<string>,
      detail: Option<string>) returns (outcome: Outcome)
      requires Valid()
      modifies this
      ensures Valid() && (Tables(), outcome) == Reconcile(old(Tables()), r, user, verified, code, detail)
    {
      ApplyInv(Tables(), ReconcileStep(r, user, verified, code, detail));
      var before := Tables();
      outcome := CheckReconciling(r, user, verified, code, detail);
      if outcome != Done { return; }
      remittances := remittances[r := ReconciledRow(remittances[r], user, verified)];
      if verified == before.remittances[r].declared {
        var error := ApplyVerifiedAllocations(r);
        if error.Some? {
          Rollback(before);
          return Refused(error.value);
        }
      } else {
        FlagRemittanceOrders(r);
        assert orders == FlagOrders(before, r);
      }
    }

    /** The running total over the order's live collections, or None when one is not settled. */
    method OrderProjection(c: nat) returns (total: Result<Option<int>, CashError>)
      requires c < |collections|
      ensures total == ProjectionTotal(Tables(), c, |collections|)
    {
      var accountableTotal := 0;
      for i := 0 to |collections|
        invariant ProjectionTotal(Tables(), c, i) == Ok(Some(accountableTotal))
      {
        var k := collections[i];
        if k.order == collections[c].order && k.status != Voided {
          if i == c {
            accountableTotal := accountableTotal + k.expected;
          } else {
            var difference := CashDifference(k.expected, k.collected);
            if difference.Err? {
              StoppedProjection(Tables(), c, i + 1, |collections|);
              return Err(difference.error);
            }
            var settled :=
              if k.discrepancy.None? then Accounted(k.status) && difference.value == 0
              else
                && k.discrepancy.value.status == Resolved && Linkage(k, k.discrepancy.value, difference.value)
                && Accounted(k.status);
            if !settled {
              StoppedProjection(Tables(), c, i + 1, |collections|);
              return Ok(None);
            }
            accountableTotal := accountableTotal + (if k.discrepancy.None? then k.collected else k.expected);
          }
        }
      }
      return Ok(Some(accountableTotal));
    }

    /** The guards of a collection's resolution that come before the final amount. */
    method CheckCollectionDiscrepancy(c: nat, user: nat, how: Resolution) returns (error: Option<CashError>)
      requires Valid()
      ensures error.Some? ==> ResolveCollectionCheck(Tables(), c, user, how) == Refused(error.value)
      ensures error.None? ==> c < |collections| && collections[c].delivery.Some? && collections[c].discrepancy.Some?
      ensures error.None? ==> ResolveCollectionCheck(Tables(), c, user, how) == FinalAmountCheck(Tables(), c, how)
    {
      if c >= |collections| || collections[c].delivery.None? { return Some(CollectionNotFound); }
      var k := collections[c];
      if k.discrepancy.None? { return Some(DiscrepancyNotFound); }
      var d := k.discrepancy.value;
      if deliveries[k.delivery.value].order != k.order || d.expected != k.expected || d.actual != k.collected {
        return Some(DiscrepancyLinkageInvalid);
      }
      var difference := CashDifference(k.expected, k.collected);
      if difference.Err? { return Some(difference.error); }
      if d.difference != difference.value { return Some(DiscrepancyLinkageInvalid); }
      if !CanTransitionDiscrepancy(d.status, if how.ExactCount? then Resolved else WrittenOff) {
        return Some(ResolutionNotAllowed);
      }
      if !Remittable(k.status) || orders[k.order].payment != ReconciliationDiscrepancy {
        return Some(CollectionDiscrepancyStateInvalid);
      }
      if k.collectedBy.None? || d.openedBy == user || k.collectedBy == Some(user) {
        return Some(SeparateApproverRequired);
      }
      if exists it | it in items :: it.collection == c { return Some(DiscrepancyAlreadyAllocated); }
      return None;
    }

    /** The final amount of a resolution, and whether it clears the order. */
    method CheckFinalAmount(c: nat, how: Resolution) returns (outcome: Outcome, clear: bool)
      requires Valid() && c < |collections|
      ensures outcome == FinalAmountCheck(Tables(), c, how)
      ensures outcome == Done ==> (clear <==> how.ExactCount? && ClearsProjection(Tables(), c))
    {
      clear := false;
      if how.ExactCount? {
        if how.finalVerified != Some(collections[c].expected) { return Refused(FinalAmountInvalid), false; }
        var total := OrderProjection(c);
        if total.Err? { return Refused(total.error), false; }
        clear := total.value == Some(orders[collections[c].order].expectedCod);
      } else if how.finalVerified.Some? {
        return Refused(FinalAmountNotApplicable), false;
      }
      outcome := Done;
    }

    method WriteRows(c: nat, user: nat, how: Resolution, clear: bool)
      requires WellFormed(Tables()) && c < |collections| && collections[c].delivery.Some? &&
        collections[c].discrepancy.Some?
      modifies this
      ensures Tables() == WriteResolution(old(Tables()), c, user, how, clear)
    {
      var k := collections[c];
      collections := collections[c := ResolvedCollection(k, user, how)];
      if clear {
        var o, d := orders[k.order], deliveries[k.delivery.value];
        orders := orders[k.order := o.(payment := CollectedPayment(o.pickup), version := o.version + 1)];
        deliveries := deliveries[k.delivery.value := d.(cashCollected := Some(true), version := d.version + 1)];
      }
    }

    method ResolveCollectionDiscrepancy(c: nat, user: nat, how: Resolution) returns (outcome: Outcome)
      requires Valid()
      modifies this
      ensures Valid() && (Tables(), outcome) == ResolveCollection(old(Tables()), c, user, how)
    {
      ApplyInv(Tables(), ResolveCollectionStep(c, user, how));
      var error := CheckCollectionDiscrepancy(c, user, how);
      if error.Some? { return Refused(error.value); }
      var clear;
      outcome, clear := CheckFinalAmount(c, how);
      if outcome != Done { return; }
      WriteRows(c, user, how, clear);
    }

    method ResolveRemittanceDiscrepancy(r: nat, i: nat, user: nat, how: Resolution) returns (outcome: Outcome)
      requires Valid()
      modifies this
      ensures Valid() && (Tables(), outcome) == ResolveRemittance(old(Tables()), r, i, user, how)
    {
      ApplyInv(Tables(), ResolveRemittanceStep(r, i, user, how));
      var before := Tables();
      if r >= |remittances| || i >= |remittances[r].discrepancies| { return Refused(DiscrepancyNotFound); }
      var m := remittances[r];
      var d := m.discrepancies[i];
      if !CanTransitionDiscrepancy(d.status, if how.ExactCount? then Resolved else WrittenOff) {
        return Refused(ResolutionNotAllowed);
      }
      if d.openedBy == user { return Refused(SeparateApproverRequired); }
      if m.status != InDiscrepancy { return Refused(RemittanceDiscrepancyStateInvalid); }
      if m.receivedBy.None? || m.receivedBy == Some(user) { return Refused(SeparateApproverRequired); }
      if how.ExactCount? && how.finalVerified != Some(m.declared) { return Refused(FinalAmountInvalid); }
      if how.WriteOff? && how.finalVerified.Some? { return Refused(FinalAmountNotApplicable); }
      outcome := Done;
      if how.ExactCount? {
        var error := ApplyVerifiedAllocations(r);
        if error.Some? {
          Rollback(before);
          return Refused(error.value);
        }
      }
      remittances := remittances[r := ResolvedRemittance(remittances[r], i, user, how)];
    }
  }
}
