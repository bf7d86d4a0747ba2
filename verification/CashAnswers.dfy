/** Every refusal of the cash service tells the truth: what it says is wrong is wrong on the columns,
    and errors that are not listed are never given in a reachable ledger. */
module CashAnswers {
  import opened Wrappers
  import opened Sums
  import opened CashTypes
  import opened CashLedger
  import opened CashInvariant
  import opened CashTheorems

  predicate RecordTells(k: Collection, o: Order, d: Delivery, input: RecordInput, key: RecordKey,
    partialEnabled: bool, e: CashError) {
    match e
    case IdempotencyKeyReused => k.recordKey == Some(key) && k.recordRequest != Some(input)
    case VersionConflict => o.version != input.orderVersion || d.version != input.deliveryVersion
    case CollectionLinkageInvalid => k.expected != o.expectedCod
    case CollectionAlreadyRecorded => k.status != Expected
    case CollectionOrderStateInvalid => o.stage != d.stage || (o.payment != PaymentPending && o.payment != CashExpected)
    case CollectionDeliveryStateInvalid => d.stage != if o.pickup then ReadyForPickup else OutForDelivery
    case CollectedAmountInvalid => input.collected <= 0
    case InvalidMillimes => !ValidAmount(input.collected) || !ValidAmount(k.expected)
    case PartialCollectionDisabled => input.collected < k.expected && !partialEnabled
    case DiscrepancyReasonRequired =>
      input.collected != k.expected && !Explained(input.reasonCode, input.reasonDetail)
    case CollectionCourierRequired =>
      !o.pickup && (d.courier.None? || (k.courier.Some? && k.courier != d.courier))
    case _ => false
  }

  lemma RecordAnswers(l: Ledger, c: nat, input: RecordInput, key: RecordKey, user: nat, partialEnabled: bool)
    requires Reachable(l)
    ensures var answer := Record(l, c, input, key, user, partialEnabled).1;
      if c >= |l.collections| || l.collections[c].delivery.None? then answer == Refused(CollectionNotFound)
      else
        var k := l.collections[c];
        var o, d := l.orders[k.order], l.deliveries[k.delivery.value];
        && (answer == Replayed <==> k.recordKey == Some(key) && k.recordRequest == Some(input))
        && (answer.Refused? ==> RecordTells(k, o, d, input, key, partialEnabled, answer.error))
  {
    ReachableInv(l);
    if c < |l.collections| { assert RowOkAt(l, c); }
  }

  predicate CreateTells(l: Ledger, input: CreateInput, e: CashError) {
    var asked := input.allocations;
    match e
    case DuplicateAllocation =>
      exists i, j | 0 <= i < j < |asked| :: asked[i].collection == asked[j].collection
    case AllocationInvalid => exists a | a in asked :: a.amount <= 0
    case InvalidMillimes =>
      AskedFor(asked) > 2_000_000_000 ||
        exists a | a in asked :: a.collection < |l.collections| && !CanDraw(l, input.courier, a)
    case RemittanceTotalMismatch => AskedFor(asked) != input.declared
    case CollectionNotFound => exists a | a in asked :: a.collection >= |l.collections|
    case EmptyAllocation => asked == []
    case CourierUnavailable => input.courier !in l.activeCouriers
    case RemittanceConflict => exists m | m in l.remittances :: m.number == input.number
    case CollectionNotRemittable | DiscrepancyUnresolved | DiscrepancyLinkMissing | DiscrepancyLinkageInvalid
       | CollectionOverAllocated =>
      exists a | a in asked :: a.collection < |l.collections| && !CanDraw(l, input.courier, a)
    case _ => false
  }

  lemma DeclaredIs(allocations: seq<Allocation>)
    requires forall a | a in allocations :: a.amount > 0
    ensures SumMillimes(Amounts(allocations)) ==
      if AskedFor(allocations) <= 2_000_000_000 then Ok(AskedFor(allocations)) else Err(InvalidMillimes)
  {
    DeclaredTotal(allocations, AskedFor(allocations));
    AskedForIs(allocations);
  }

  /** A refusal in id order is about an allocation that cannot be drawn. */
  lemma {:induction false} FirstErrorTells(l: Ledger, input: CreateInput, c: nat)
    requires Inv(l) && c <= |l.collections| && FirstAllocationError(l, input, c).Some?
    ensures FirstAllocationError(l, input, c).value in
      {CollectionNotRemittable, DiscrepancyUnresolved, DiscrepancyLinkMissing, DiscrepancyLinkageInvalid,
        CollectionOverAllocated, InvalidMillimes}
    ensures exists a | a in input.allocations :: a.collection < |l.collections| && !CanDraw(l, input.courier, a)
    decreases |l.collections| - c
  {
    var amount := Requested(input.allocations, c);
    if amount.Some? && AllocationError(l, input.courier, c, amount.value).Some? {
      var a := RequestedFrom(input.allocations, c);
      AllocationErrorIs(l, input.courier, a);
    } else {
      FirstErrorTells(l, input, c + 1);
    }
  }

  lemma {:induction false} RequestedFrom(allocations: seq<Allocation>, c: nat) returns (a: Allocation)
    requires Requested(allocations, c).Some?
    ensures a in allocations && a.collection == c && Some(a.amount) == Requested(allocations, c)
  {
    var n := |allocations| - 1;
    if allocations[n].collection == c { a := allocations[n]; } else { a := RequestedFrom(allocations[..n], c); }
  }

  lemma CreateAnswers(l: Ledger, input: CreateInput)
    requires Reachable(l) && Create(l, input).1 != Done
    ensures Create(l, input).1.Refused? && CreateTells(l, input, Create(l, input).1.error)
  {
    ReachableInv(l);
    if Distinct(input.allocations) && forall a | a in input.allocations :: a.amount > 0 {
      DeclaredIs(input.allocations);
      if FirstAllocationError(l, input, 0).Some? { FirstErrorTells(l, input, 0); }
    }
  }

  lemma SubmitAnswers(l: Ledger, r: nat, user: nat)
    requires Reachable(l)
    ensures Submit(l, r, user).1 ==
      if r >= |l.remittances| then Refused(RemittanceNotFound)
      else if l.remittances[r].status != Draft then Refused(SubmissionNotAllowed)
      else Done
  {
    ReachableInv(l);
    SubmitSucceeds(l, r, user);
  }

  /** The guards of a reconciliation that can fire, on the columns. */
  lemma ReconcileAnswers(l: Ledger, r: nat, user: nat, verified: int, code: Option<string>, detail: Option<string>)
    requires Reachable(l)
    ensures var answer := Reconcile(l, r, user, verified, code, detail).1;
      if r >= |l.remittances| then answer == Refused(RemittanceNotFound)
      else
        var m := l.remittances[r];
        if m.status == Draft || m.status == Verified then answer == Refused(ReconciliationNotAllowed)
        else if m.receivedBy == Some(user) then answer == Refused(SeparateApproverRequired)
        else if !ValidAmount(verified) then answer == Refused(InvalidMillimes)
        else if verified != m.declared && !Explained(code, detail) then answer == Refused(DiscrepancyReasonRequired)
        else if m.status != Submitted then answer == Refused(ReconciliationNotAllowed)
        else answer == Done
  {
    ReachableInv(l);
    if r < |l.remittances| {
      var m := l.remittances[r];
      ReconcileSucceeds(l, r, user, verified, code, detail);
      TotalIs(l, r);
      if m.status != Verified { PendingRemittable(l, r); }
      RemittanceRow(l, r);
    }
  }

  lemma RemittanceRow(l: Ledger, r: nat)
    requires Inv(l) && r < |l.remittances|
    ensures var m := l.remittances[r];
      && ValidMillimes(m.declared) && (m.status != Draft ==> m.receivedBy.Some?)
      && (m.status == Draft || m.status == Submitted || m.status == Verified || m.status == InDiscrepancy)
  {
    assert RemittanceOk(l.remittances[r], Listed(l, r)) by {
      ListedIs(l, r);
      assert RemittanceOk(l.remittances[r], Sum(l.items, OfRemittance(r)));
    }
  }

  /** The guards of the resolution of a collection that can fire, on the columns. */
  lemma ResolveCollectionAnswers(l: Ledger, c: nat, user: nat, how: Resolution)
    requires Reachable(l)
    ensures var answer := ResolveCollection(l, c, user, how).1;
      if c >= |l.collections| || l.collections[c].delivery.None? then answer == Refused(CollectionNotFound)
      else if l.collections[c].discrepancy.None? then answer == Refused(DiscrepancyNotFound)
      else
        var k := l.collections[c];
        if k.discrepancy.value.status != Open then answer == Refused(ResolutionNotAllowed)
        else if k.discrepancy.value.openedBy == user || k.collectedBy == Some(user)
        then answer == Refused(SeparateApproverRequired)
        else if how.ExactCount? && how.finalVerified != Some(k.expected) then answer == Refused(FinalAmountInvalid)
        else if how.ExactCount? && AmountBlocks(l, c, |l.collections|) then answer == Refused(InvalidMillimes)
        else if how.WriteOff? && how.finalVerified.Some? then answer == Refused(FinalAmountNotApplicable)
        else answer == Done
  {
    ReachableInv(l);
    if c < |l.collections| && l.collections[c].discrepancy.Some? {
      assert RowOkAt(l, c);
      ProjectionIs(l, c, |l.collections|);
      if l.collections[c].discrepancy.value.status == Open { UnresolvedUnallocated(l, c); }
    }
  }

  lemma ResolveRemittanceAnswers(l: Ledger, r: nat, i: nat, user: nat, how: Resolution)
    requires Reachable(l)
    ensures var answer := ResolveRemittance(l, r, i, user, how).1;
      if r >= |l.remittances| || i >= |l.remittances[r].discrepancies| then answer == Refused(DiscrepancyNotFound)
      else
        var m := l.remittances[r];
        if m.discrepancies[i].status != Open then answer == Refused(ResolutionNotAllowed)
        else if m.discrepancies[i].openedBy == user || m.receivedBy == Some(user)
        then answer == Refused(SeparateApproverRequired)
        else if how.ExactCount? && how.finalVerified != Some(m.declared) then answer == Refused(FinalAmountInvalid)
        else if how.WriteOff? && how.finalVerified.Some? then answer == Refused(FinalAmountNotApplicable)
        else answer == Done
  {
    ReachableInv(l);
    ResolveRemittanceSucceeds(l, r, i, user, how);
    if r < |l.remittances| {
      ListedIs(l, r);
      assert RemittanceOk(l.remittances[r], Sum(l.items, OfRemittance(r)));
    }
  }
}
