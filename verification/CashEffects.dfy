/** What each transaction of the cash service writes, column by column, in every reachable ledger. A
    row that is not mentioned is as it was. */
module CashEffects {
  import opened Wrappers
  import opened Sums
  import opened CashTypes
  import opened CashLedger
  import opened CashInvariant
  import opened CashVerifyProof
  import opened CashTheorems
  import opened CashSettlement
  import R = CashDiscrepancyRuns

  // Refusals.

  /** A transaction that is not done leaves the ledger as it was. */
  lemma OnlyDoneWrites(l: Ledger, s: Step)
    requires Reachable(l) && Apply(l, s).1 != Done
    ensures Apply(l, s).0 == l
  {
    ReachableInv(l);
  }

  // Recording.

  /** The amounts of a recording: what is missing or too much opens a discrepancy of the collector. */
  predicate RecordedFor(k: Collection, k': Collection, d: Delivery, pickup: bool, input: RecordInput,
    key: RecordKey, user: nat) {
    && k'.order == k.order && k'.delivery == k.delivery && k'.expected == k.expected
    && k'.status == (if input.collected < k.expected then PartiallyCollected else Collected)
    && k'.collected == input.collected && k'.collectedBy == Some(user)
    && k'.courier == (if pickup then None else d.courier)
    && k'.recordKey == Some(key) && k'.recordRequest == Some(input)
    && k'.discrepancy ==
      if input.collected == k.expected then None
      else Some(Discrepancy(Open, k.expected, input.collected, input.collected - k.expected, user, None))
  }

  lemma RecordWrites(l: Ledger, c: nat, input: RecordInput, key: RecordKey, user: nat, partialEnabled: bool)
    requires Reachable(l) && Record(l, c, input, key, user, partialEnabled).1 == Done
    ensures c < |l.collections| && l.collections[c].delivery.Some?
    ensures
      var l' := Record(l, c, input, key, user, partialEnabled).0;
      var k, o := l.collections[c], l.orders[l.collections[c].order];
      var i := k.delivery.value;
      var d := l.deliveries[i];
      && |l'.collections| == |l.collections| && RecordedFor(k, l'.collections[c], d, o.pickup, input, key, user)
      && l' == l.(collections := l.collections[c := l'.collections[c]], orders := l'.orders,
           deliveries := l'.deliveries)
      && l'.orders == l.orders[k.order := Order(o.stage,
           if input.collected != k.expected then ReconciliationDiscrepancy
           else if o.pickup then CashCollectedAtStore else CashCollectedByCourier,
           o.expectedCod, o.pickup, o.version + 1)]
      && l'.deliveries ==
           l.deliveries[i := Delivery(d.order, d.stage, d.courier, Some(input.collected == k.expected), d.version + 1)]
  {
    ReachableInv(l);
  }

  // Creating and submitting.

  lemma CreateWrites(l: Ledger, input: CreateInput)
    requires Reachable(l) && Create(l, input).1 == Done
    ensures
      var l' := Create(l, input).0;
      var n := |l.items|;
      && l' == l.(remittances := l'.remittances, items := l'.items)
      && l'.remittances == l.remittances +
           [Remittance(input.number, input.courier, Draft, input.declared, None, None, None, None, [])]
      && |l'.items| == n + |input.allocations| && l'.items[..n] == l.items
      && forall i | 0 <= i < |input.allocations| ::
           l'.items[n + i] == Item(|l.remittances|, input.allocations[i].collection, input.allocations[i].amount)
  {
    ReachableInv(l);
  }

  lemma SubmitWrites(l: Ledger, r: nat, user: nat)
    requires Reachable(l) && Submit(l, r, user).1 == Done
    ensures r < |l.remittances| && l.remittances[r].status == Draft
    ensures var m := l.remittances[r];
      Submit(l, r, user).0 == l.(remittances := l.remittances[r :=
        Remittance(m.number, m.courier, Submitted, m.declared, m.verified, m.difference, Some(user), m.verifiedBy,
          m.discrepancies)])
  {
    ReachableInv(l);
    SubmitSucceeds(l, r, user);
  }

  // Reconciling and applying.

  /** Remittance r has an allocation for collection c, and one for a collection of order o. */
  predicate Draws(l: Ledger, r: nat, c: nat) {
    exists i | 0 <= i < |l.items| :: l.items[i].remittance == r && l.items[i].collection == c
  }

  predicate Concerns(l: Ledger, r: nat, o: nat)
    requires WellFormed(l)
  {
    exists i | 0 <= i < |l.items| ::
      l.items[i].remittance == r && l.collections[l.items[i].collection].order == o
  }

  lemma DrawsIs(l: Ledger, r: nat, c: nat)
    ensures Draws(l, r, c) <==> HasItem(l, r, c)
  {
    if it :| it in l.items && it.remittance == r && it.collection == c {
      var i :| 0 <= i < |l.items| && l.items[i] == it;
    }
    if i :| 0 <= i < |l.items| && l.items[i].remittance == r && l.items[i].collection == c {
      assert l.items[i] in l.items;
    }
  }

  lemma ConcernsIs(l: Ledger, r: nat, o: nat)
    requires WellFormed(l)
    ensures Concerns(l, r, o) <==> Touches(l, r, o)
  {
    if it :| it in l.items && it.remittance == r && l.collections[it.collection].order == o {
      var i :| 0 <= i < |l.items| && l.items[i] == it;
    }
    if i :| 0 <= i < |l.items| && l.items[i].remittance == r && l.collections[l.items[i].collection].order == o {
      assert l.items[i] in l.items;
    }
  }

  /** A count that differs: the remittance is in discrepancy with what was found, and every order with
      an allocation in it is discrepant. */
  lemma ReconcileDiffers(l: Ledger, r: nat, user: nat, verified: int, code: Option<string>, detail: Option<string>)
    requires Reachable(l) && r < |l.remittances| && verified != l.remittances[r].declared
    requires Reconcile(l, r, user, verified, code, detail).1 == Done
    ensures
      var l', m := Reconcile(l, r, user, verified, code, detail).0, l.remittances[r];
      && l' == l.(remittances := l'.remittances, orders := l'.orders)
      && l'.remittances == l.remittances[r := Remittance(m.number, m.courier, InDiscrepancy, m.declared,
           Some(verified), Some(verified - m.declared), m.receivedBy, Some(user),
           [Discrepancy(Open, m.declared, verified, verified - m.declared, user, None)])]
      && |l'.orders| == |l.orders|
      && forall o: nat | o < |l.orders| :: l'.orders[o] ==
           if Concerns(l, r, o)
           then Order(l.orders[o].stage, ReconciliationDiscrepancy, l.orders[o].expectedCod, l.orders[o].pickup,
             l.orders[o].version + 1)
           else l.orders[o]
  {
    ReachableInv(l);
    ReconcileSucceeds(l, r, user, verified, code, detail);
    var m := l.remittances[r];
    assert RemittanceOk(m, Sum(l.items, OfRemittance(r)));
    var raised := Discrepancy(Open, m.declared, verified, verified - m.declared, user, None);
    assert m.discrepancies + [raised] == [raised];
    forall o: nat | o < |l.orders| ensures Concerns(l, r, o) <==> Touches(l, r, o) { ConcernsIs(l, r, o); }
  }

  /** Collection c is REMITTED for just what its order expects and is the only live one. */
  predicate PaysOff(l: Ledger, o: nat, c: nat)
    requires o < |l.orders| && c < |l.collections|
  {
    && l.collections[c].order == o && l.collections[c].status == Remitted
    && AnswersFor(l.collections[c]) == l.orders[o].expectedCod
    && forall i | 0 <= i < |l.collections| && i != c && l.collections[i].order == o :: l.collections[i].status == Voided
  }

  predicate PaidOff(l: Ledger, o: nat)
    requires o < |l.orders|
  {
    exists c: nat | c < |l.collections| :: PaysOff(l, o, c)
  }

  /** Once remittance r counts, the collections it draws on are REMITTED if they are paid in full, and
      the orders it concerns are CASH_REMITTED if that pays them off. */
  predicate AppliedTo(l: Ledger, l': Ledger, r: nat)
    requires WellFormed(l)
  {
    && |l'.collections| == |l.collections| && |l'.orders| == |l.orders|
    && (forall c: nat | c < |l.collections| :: l'.collections[c] ==
          if Draws(l, r, c) && Paid(l', c) == AnswersFor(l.collections[c])
          then l.collections[c].(status := Remitted) else l.collections[c])
    && (forall o: nat | o < |l.orders| :: l'.orders[o] ==
          if Concerns(l, r, o) && PaidOff(l', o)
          then Order(l.orders[o].stage, CashRemitted, l.orders[o].expectedCod, l.orders[o].pickup,
            l.orders[o].version + 1)
          else l.orders[o])
  }

  lemma AppliedCollection(l: Ledger, b: Ledger, r: nat, row: Remittance, c: nat)
    requires Verifying(l, b, r) && row.status == Verified && WellFormed(b) && c < |l.collections|
    ensures var l' := Applied(b, r, row);
      l'.collections[c] ==
        if Draws(l, r, c) && Paid(l', c) == AnswersFor(l.collections[c])
        then l.collections[c].(status := Remitted) else l.collections[c]
  {
    MarkedRow(l, b, r, c);
    AppliedSums(l, b, r, row, c);
    SumsAre(Applied(b, r, row), c);
    DrawsIs(l, r, c);
  }

  lemma PaidOffIs(l: Ledger, o: nat)
    requires Reachable(l) && o < |l.orders|
    ensures PaidOff(l, o) <==> l.orders[o].payment == CashRemitted
  {
    CashRemittedExactly(l, o);
    if l.orders[o].payment == CashRemitted {
      var c: nat :| c < |l.collections| && l.collections[c].order == o && SettlesAlone(l, c);
      assert StandsAlone(l, c) && PaysOff(l, o, c);
    }
    if c: nat :| c < |l.collections| && PaysOff(l, o, c) { assert StandsAlone(l, c) && SettlesAlone(l, c); }
  }

  lemma AppliedOrderRow(l: Ledger, b: Ledger, r: nat, row: Remittance, o: nat)
    requires Verifying(l, b, r) && row.status == Verified && WellFormed(b) && o < |l.orders|
    requires Reachable(Applied(b, r, row))
    ensures var l' := Applied(b, r, row);
      l'.orders[o] ==
        if Concerns(l, r, o) && PaidOff(l', o)
        then Order(l.orders[o].stage, CashRemitted, l.orders[o].expectedCod, l.orders[o].pickup,
          l.orders[o].version + 1)
        else l.orders[o]
  {
    PaidOffIs(Applied(b, r, row), o);
    ConcernsIs(l, r, o);
    FlagInv(l, r);
  }

  lemma AppliedIs(l: Ledger, b: Ledger, r: nat, row: Remittance)
    requires Verifying(l, b, r) && row.status == Verified && WellFormed(b) && Reachable(Applied(b, r, row))
    ensures AppliedTo(l, Applied(b, r, row), r)
  {
    var l' := Applied(b, r, row);
    forall c: nat | c < |l.collections|
      ensures l'.collections[c] ==
        if Draws(l, r, c) && Paid(l', c) == AnswersFor(l.collections[c])
        then l.collections[c].(status := Remitted) else l.collections[c]
    {
      AppliedCollection(l, b, r, row, c);
    }
    forall o: nat | o < |l.orders|
      ensures l'.orders[o] ==
        if Concerns(l, r, o) && PaidOff(l', o)
        then Order(l.orders[o].stage, CashRemitted, l.orders[o].expectedCod, l.orders[o].pickup,
          l.orders[o].version + 1)
        else l.orders[o]
    {
      AppliedOrderRow(l, b, r, row, o);
    }
  }

  /** The declared amount: the remittance is verified without a difference and applied. */
  lemma ReconcileMatches(l: Ledger, r: nat, user: nat, code: Option<string>, detail: Option<string>)
    requires Reachable(l) && r < |l.remittances|
    requires Reconcile(l, r, user, l.remittances[r].declared, code, detail).1 == Done
    ensures
      var l', m := Reconcile(l, r, user, l.remittances[r].declared, code, detail).0, l.remittances[r];
      && l' == l.(remittances := l'.remittances, collections := l'.collections, orders := l'.orders)
      && l'.remittances == l.remittances[r := Remittance(m.number, m.courier, Verified, m.declared,
           Some(m.declared), Some(0), m.receivedBy, Some(user), [])]
      && AppliedTo(l, l', r)
  {
    ReachableInv(l);
    var m := l.remittances[r];
    ReconcileSucceeds(l, r, user, m.declared, code, detail);
    assert RemittanceOk(m, Sum(l.items, OfRemittance(r)));
    var row := ReconciledRow(m, user, m.declared);
    var b := l.(remittances := l.remittances[r := row]);
    ApplyVerifiedSucceeds(l, b, r);
    assert b.remittances[r := row] == b.remittances;
    R.Reach(l, ReconcileStep(r, user, m.declared, code, detail));
    AppliedIs(l, b, r, row);
  }

  // Resolving.

  lemma OneDiscrepancy(m: Remittance, user: nat, how: Resolution)
    requires |m.discrepancies| == 1
    ensures var d := m.discrepancies[0];
      ResolvedRemittance(m, 0, user, how).discrepancies == [Discrepancy(
        if how.ExactCount? then Resolved else WrittenOff, d.expected, d.actual, d.difference, d.openedBy, Some(user))]
  {
  }

  /** An exact count of a remittance verifies and applies it, and resolves its discrepancy. */
  lemma ResolveRemittanceCounts(l: Ledger, r: nat, i: nat, user: nat, how: Resolution)
    requires Reachable(l) && how.ExactCount? && ResolveRemittance(l, r, i, user, how).1 == Done
    ensures r < |l.remittances| && i == 0 && |l.remittances[r].discrepancies| == 1
    ensures
      var l', m := ResolveRemittance(l, r, i, user, how).0, l.remittances[r];
      var d := m.discrepancies[0];
      && l' == l.(remittances := l'.remittances, collections := l'.collections, orders := l'.orders)
      && l'.remittances == l.remittances[r := Remittance(m.number, m.courier, Verified, m.declared,
           Some(m.declared), Some(0), m.receivedBy, Some(user),
           [Discrepancy(Resolved, d.expected, d.actual, d.difference, d.openedBy, Some(user))])]
      && AppliedTo(l, l', r)
  {
    ReachableInv(l);
    ResolveRemittanceSucceeds(l, r, i, user, how);
    var m := l.remittances[r];
    assert RemittanceOk(m, Sum(l.items, OfRemittance(r)));
    var row := ResolvedRemittance(m, i, user, how);
    OneDiscrepancy(m, user, how);
    ApplyVerifiedSucceeds(l, l, r);
    assert ResolveRemittance(l, r, i, user, how).0 == Applied(l, r, row);
    R.Reach(l, ResolveRemittanceStep(r, i, user, how));
    AppliedIs(l, l, r, row);
  }

  /** A write-off of a remittance only settles its discrepancy. */
  lemma ResolveRemittanceWritesOff(l: Ledger, r: nat, i: nat, user: nat, how: Resolution)
    requires Reachable(l) && how.WriteOff? && ResolveRemittance(l, r, i, user, how).1 == Done
    ensures r < |l.remittances| && i == 0 && |l.remittances[r].discrepancies| == 1
    ensures
      var m := l.remittances[r];
      var d := m.discrepancies[0];
      ResolveRemittance(l, r, i, user, how).0 == l.(remittances := l.remittances[r :=
        Remittance(m.number, m.courier, InDiscrepancy, m.declared, m.verified, m.difference, m.receivedBy, m.verifiedBy,
          [Discrepancy(WrittenOff, d.expected, d.actual, d.difference, d.openedBy, Some(user))])])
  {
    ReachableInv(l);
    ResolveRemittanceSucceeds(l, r, i, user, how);
    assert RemittanceOk(l.remittances[r], Sum(l.items, OfRemittance(r)));
    OneDiscrepancy(l.remittances[r], user, how);
  }

  /** Every other collection of the order of collection c has been voided. */
  predicate OnlyLive(l: Ledger, c: nat)
    requires c < |l.collections|
  {
    forall i | 0 <= i < |l.collections| && i != c && l.collections[i].order == l.collections[c].order ::
      l.collections[i].status == Voided
  }

  /** An exact count of a collection makes it COLLECTED with its discrepancy resolved; if it is the
      only live one its order is collected and its delivery has its cash. */
  lemma ResolveCollectionCounts(l: Ledger, c: nat, user: nat, how: Resolution)
    requires Reachable(l) && how.ExactCount? && ResolveCollection(l, c, user, how).1 == Done
    ensures c < |l.collections| && l.collections[c].delivery.Some? && l.collections[c].discrepancy.Some?
    ensures
      var l', k := ResolveCollection(l, c, user, how).0, l.collections[c];
      var i := k.delivery.value;
      var o, d, x := l.orders[k.order], l.deliveries[i], k.discrepancy.value;
      && l' == l.(collections := l'.collections, orders := l'.orders, deliveries := l'.deliveries)
      && l'.collections == l.collections[c := Collection(k.order, k.delivery, k.courier, Collected, k.expected,
           k.collected, k.collectedBy, k.recordKey, k.recordRequest,
           Some(Discrepancy(Resolved, x.expected, x.actual, x.difference, x.openedBy, Some(user))))]
      && (if OnlyLive(l, c)
          then
            && l'.orders == l.orders[k.order := Order(o.stage,
                 if o.pickup then CashCollectedAtStore else CashCollectedByCourier,
                 o.expectedCod, o.pickup, o.version + 1)]
            && l'.deliveries == l.deliveries[i := Delivery(d.order, d.stage, d.courier, Some(true), d.version + 1)]
          else l'.orders == l.orders && l'.deliveries == l.deliveries)
  {
    ReachableInv(l);
    ResolveCollectionSucceeds(l, c, user, how);
    assert RowOkAt(l, c);
    ProjectionIs(l, c, |l.collections|);
    OthersVoided(l, c);
    assert OnlyLive(l, c) == StandsAlone(l, c);
  }

  /** A write-off of a collection only settles its discrepancy. */
  lemma ResolveCollectionWritesOff(l: Ledger, c: nat, user: nat, how: Resolution)
    requires Reachable(l) && how.WriteOff? && ResolveCollection(l, c, user, how).1 == Done
    ensures c < |l.collections| && l.collections[c].discrepancy.Some?
    ensures
      var k := l.collections[c];
      var x := k.discrepancy.value;
      ResolveCollection(l, c, user, how).0 == l.(collections := l.collections[c := Collection(k.order, k.delivery,
        k.courier, k.status, k.expected, k.collected, k.collectedBy, k.recordKey, k.recordRequest,
        Some(Discrepancy(WrittenOff, x.expected, x.actual, x.difference, x.openedBy, Some(user))))])
  {
    ReachableInv(l);
  }
}
