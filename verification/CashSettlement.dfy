/** Exact statements about statuses: which steps follow the collection transition table, and when an
    order is CASH_REMITTED. */
module CashSettlement {
  import opened CashTypes
  import opened CashLedger
  import opened CashInvariant
  import opened CashVerifyProof
  import opened CashTheorems

  /** A step that changes the status of a collection follows the transition table exactly unless it
      cancels the order or resolves a partial collection. */
  lemma TransitionsExactly(l: Ledger, s: Step, c: nat)
    requires Reachable(l) && c < |l.collections| && c < |Apply(l, s).0.collections|
    requires Apply(l, s).0.collections[c].status != l.collections[c].status
    ensures CanTransitionCollection(l.collections[c].status, Apply(l, s).0.collections[c].status) <==>
      !s.CancelOrderStep? && !(s.ResolveCollectionStep? && l.collections[c].status == PartiallyCollected)
    ensures s.ResolveCollectionStep? ==>
      l.collections[c].status == PartiallyCollected && Apply(l, s).0.collections[c].status == Collected
  {
    ReachableInv(l);
    if s.ReconcileStep? || s.ResolveRemittanceStep? { VerifiedChange(l, s, c); } else { OtherChange(l, s, c); }
  }

  lemma OtherChange(l: Ledger, s: Step, c: nat)
    requires Inv(l) && c < |l.collections| && c < |Apply(l, s).0.collections| && !s.ReconcileStep? &&
      !s.ResolveRemittanceStep?
    requires Apply(l, s).0.collections[c].status != l.collections[c].status
    ensures CanTransitionCollection(l.collections[c].status, Apply(l, s).0.collections[c].status) <==>
      !s.CancelOrderStep? && !(s.ResolveCollectionStep? && l.collections[c].status == PartiallyCollected)
    ensures s.ResolveCollectionStep? ==>
      l.collections[c].status == PartiallyCollected && Apply(l, s).0.collections[c].status == Collected
  {
    assert RowOkAt(l, c);
  }

  /** The step verifies its remittance. */
  predicate Verifies(l: Ledger, s: Step)
    requires WellFormed(l)
  {
    match s
    case ReconcileStep(r, user, verified, code, detail) =>
      ReconcileCheck(l, r, user, verified, code, detail) == Done && verified == l.remittances[r].declared
    case ResolveRemittanceStep(r, i, user, how) => ResolveRemittanceCheck(l, r, i, user, how) == Done && how.ExactCount?
    case _ => false
  }

  /** What such a step applies. */
  lemma VerifyingStep(l: Ledger, s: Step) returns (b: Ledger, r: nat, row: Remittance)
    requires Inv(l) && Verifies(l, s)
    ensures Verifying(l, b, r) && WellFormed(b) && row.status == Verified && Apply(l, s).0 == Applied(b, r, row)
  {
    match s
    case ReconcileStep(q, user, verified, code, detail) =>
      r, row := q, ReconciledRow(l.remittances[q], user, verified);
      b := l.(remittances := l.remittances[r := row]);
      ApplyVerifiedSucceeds(l, b, r);
      assert b.remittances[r := row] == b.remittances;
    case ResolveRemittanceStep(q, i, user, how) =>
      r, b, row := q, l, ResolvedRemittance(l.remittances[q], i, user, how);
      ApplyVerifiedSucceeds(l, l, r);
  }

  lemma UnverifiedStep(l: Ledger, s: Step)
    requires Inv(l) && (s.ReconcileStep? || s.ResolveRemittanceStep?) && !Verifies(l, s)
    ensures Apply(l, s).0.collections == l.collections
    ensures Apply(l, s).0.orders == l.orders ||
      (s.ReconcileStep? && s.r < |l.remittances| && l.remittances[s.r].status != Verified &&
        Apply(l, s).0.orders == FlagOrders(l, s.r))
  {
  }

  lemma VerifiedChange(l: Ledger, s: Step, c: nat)
    requires Inv(l) && c < |l.collections| && c < |Apply(l, s).0.collections| &&
      (s.ReconcileStep? || s.ResolveRemittanceStep?)
    requires Apply(l, s).0.collections[c].status != l.collections[c].status
    ensures CanTransitionCollection(l.collections[c].status, Apply(l, s).0.collections[c].status)
  {
    if Verifies(l, s) {
      var b, r, row := VerifyingStep(l, s);
      MarkedRow(l, b, r, c);
    } else {
      UnverifiedStep(l, s);
    }
  }

  // When an order is CASH_REMITTED.

  /** The collection is REMITTED for the order's expected cash and is the only live one. */
  predicate SettlesAlone(l: Ledger, c: nat)
    requires WellFormed(l) && c < |l.collections|
  {
    Settles(l.collections[c], l.orders[l.collections[c].order]) && StandsAlone(l, c)
  }

  predicate Marked(l: Ledger, c: nat)
    requires WellFormed(l) && c < |l.collections|
  {
    SettlesAlone(l, c) ==> l.orders[l.collections[c].order].payment == CashRemitted
  }

  predicate AllMarked(l: Ledger)
    requires WellFormed(l)
  {
    forall c | 0 <= c < |l.collections| :: Marked(l, c)
  }

  lemma VerifiedMarks(l: Ledger, b: Ledger, r: nat, row: Remittance, c: nat)
    requires Verifying(l, b, r) && WellFormed(b) && AllMarked(l) && c < |l.collections|
    requires WellFormed(Applied(b, r, row))
    ensures Marked(Applied(b, r, row), c)
  {
    var l' := Applied(b, r, row);
    var o := l.collections[c].order;
    MarkedRow(l, b, r, c);
    assert Marked(l, c);
    if SettlesAlone(l', c) {
      forall i | 0 <= i < |l.collections| && i != c && l.collections[i].order == o
        ensures l'.collections[i].status == Voided && l.collections[i].status == Voided
      {
        MarkedRow(l, b, r, i);
        assert l'.collections[i].order == o;
      }
      if l.collections[c].status != Remitted {
        var it :| it in l.items && it.remittance == r && it.collection == c;
        assert Touches(b, r, o);
        OrderTest(l, b, r, o);
        assert MarkRemitted(b, r)[c].order == o && Settles(MarkRemitted(b, r)[c], l.orders[o]);
      }
    }
  }

  lemma FlaggedMarks(l: Ledger, l': Ledger, r: nat, c: nat)
    requires Inv(l) && Inv(l') && AllMarked(l) && r < |l.remittances| && l.remittances[r].status != Verified &&
      c < |l.collections|
    requires l'.collections == l.collections && l'.orders == FlagOrders(l, r)
    ensures Marked(l', c)
  {
    FlagInv(l, r);
    assert Marked(l, c);
    assert SettlesAlone(l', c) ==> SettlesAlone(l, c);
  }

  /** A step that touches one recorded row neither settles nor unsettles an order. */
  lemma OneRowMarks(l: Ledger, l': Ledger, x: nat, c: nat)
    requires Inv(l) && AllMarked(l) && Inv(l') && x < |l.collections| && c < |l.collections|
    requires |l'.collections| == |l.collections| && |l'.orders| == |l.orders|
    requires forall i | 0 <= i < |l.collections| && i != x :: l'.collections[i] == l.collections[i]
    requires l'.collections[x].order == l.collections[x].order
    requires Remittable(l'.collections[x].status) && l.collections[x].status != Voided &&
      l.collections[x].status != Remitted
    requires forall o | 0 <= o < |l.orders| && o != l.collections[x].order :: l'.orders[o] == l.orders[o]
    ensures Marked(l', c)
  {
    assert Marked(l, c);
    if SettlesAlone(l', c) {
      assert c != x && l'.collections[x].status != Voided;
      assert forall i | 0 <= i < |l.collections| :: l'.collections[i].status == Voided <==>
        l.collections[i].status == Voided;
    }
  }

  lemma RecordedMarks(l: Ledger, s: Step, c: nat)
    requires Inv(l) && AllMarked(l) && Inv(Apply(l, s).0) && c < |Apply(l, s).0.collections|
    requires s.RecordStep? || s.ResolveCollectionStep?
    ensures Marked(Apply(l, s).0, c)
  {
    var x := s.c;
    if Apply(l, s).1 == Done {
      assert RowOkAt(l, x);
      OneRowMarks(l, Apply(l, s).0, x, c);
    } else {
      assert Marked(l, c);
    }
  }

  lemma CancelledMarks(l: Ledger, o: nat, c: nat)
    requires Inv(l) && AllMarked(l) && Inv(CancelOrder(l, o).0) && c < |l.collections|
    ensures Marked(CancelOrder(l, o).0, c)
  {
    var l' := CancelOrder(l, o).0;
    assert RowOkAt(l, c) && Marked(l, c);
    if SettlesAlone(l', c) && l.collections[c].order != o {
      forall i | 0 <= i < |l.collections| && i != c && l.collections[i].order == l.collections[c].order
        ensures l.collections[i].status == Voided
      {
        assert l'.collections[i] == l.collections[i];
      }
    }
  }

  lemma PlacedMarks(l: Ledger, order: Order, amounts: seq<int>, c: nat)
    requires Inv(l) && AllMarked(l) && Inv(PlaceOrder(l, order, amounts).0) &&
      c < |PlaceOrder(l, order, amounts).0.collections|
    ensures Marked(PlaceOrder(l, order, amounts).0, c)
  {
    var l' := PlaceOrder(l, order, amounts).0;
    if c < |l.collections| && SettlesAlone(l', c) {
      assert Marked(l, c);
      forall i | 0 <= i < |l.collections| && i != c && l.collections[i].order == l.collections[c].order
        ensures l.collections[i].status == Voided
      {
        assert l'.collections[i] == l.collections[i];
      }
    }
  }

  lemma OtherMarks(l: Ledger, s: Step, c: nat)
    requires Inv(l) && AllMarked(l) && Inv(Apply(l, s).0) && c < |l.collections|
    requires s.CreateStep? || s.SubmitStep? || s.MoveDeliveryStep? || s.SetCouriersStep?
    ensures c < |Apply(l, s).0.collections| && Marked(Apply(l, s).0, c)
  {
    assert Marked(l, c);
    assert Apply(l, s).0.collections == l.collections;
    assert SettlesAlone(Apply(l, s).0, c) ==> SettlesAlone(l, c);
  }

  lemma StepMarks(l: Ledger, s: Step)
    requires Inv(l) && AllMarked(l)
    ensures Inv(Apply(l, s).0) && AllMarked(Apply(l, s).0)
  {
    ApplyInv(l, s);
    var l' := Apply(l, s).0;
    forall c | 0 <= c < |l'.collections| ensures Marked(l', c) { StepMarksRow(l, s, c); }
  }

  lemma StepMarksRow(l: Ledger, s: Step, c: nat)
    requires Inv(l) && AllMarked(l) && Inv(Apply(l, s).0) && c < |Apply(l, s).0.collections|
    ensures Marked(Apply(l, s).0, c)
  {
    match s
    case RecordStep(_, _, _, _, _) => RecordedMarks(l, s, c);
    case ResolveCollectionStep(_, _, _) => RecordedMarks(l, s, c);
    case CancelOrderStep(o) => CancelledMarks(l, o, c);
    case PlaceOrderStep(order, amounts) => PlacedMarks(l, order, amounts, c);
    case ReconcileStep(_, _, _, _, _) => VerifiedStepMarks(l, s, c);
    case ResolveRemittanceStep(_, _, _, _) => VerifiedStepMarks(l, s, c);
    case _ => OtherMarks(l, s, c);
  }

  lemma VerifiedStepMarks(l: Ledger, s: Step, c: nat)
    requires Inv(l) && AllMarked(l) && Inv(Apply(l, s).0) && c < |Apply(l, s).0.collections|
    requires s.ReconcileStep? || s.ResolveRemittanceStep?
    ensures Marked(Apply(l, s).0, c)
  {
    if Verifies(l, s) {
      var b, r, row := VerifyingStep(l, s);
      VerifiedMarks(l, b, r, row, c);
    } else {
      UnverifiedStep(l, s);
      assert Marked(l, c);
      if Apply(l, s).0.orders != l.orders {
        FlaggedMarks(l, Apply(l, s).0, s.r, c);
      } else {
        assert SettlesAlone(Apply(l, s).0, c) ==> SettlesAlone(l, c);
      }
    }
  }

  lemma {:induction false} RunMarks(l: Ledger, steps: seq<Step>)
    requires Inv(l) && AllMarked(l)
    ensures AllMarked(Run(l, steps))
    decreases |steps|
  {
    if steps != [] {
      StepMarks(l, steps[0]);
      RunMarks(Apply(l, steps[0]).0, steps[1..]);
    }
  }

  lemma ReachableMarked(l: Ledger)
    requires Reachable(l)
    ensures Inv(l) && AllMarked(l)
  {
    InvEmpty();
    var steps: seq<Step> :| Run(EmptyLedger, steps) == l;
    RunMarks(EmptyLedger, steps);
  }

  lemma RemittedSettles(l: Ledger, o: nat) returns (c: nat)
    requires Inv(l) && o < |l.orders| && l.orders[o].payment == CashRemitted
    ensures c < |l.collections| && l.collections[c].order == o && SettlesAlone(l, c)
  {
    assert OrderOk(l, o);
    c :| 0 <= c < |l.collections| && l.collections[c].order == o && Settles(l.collections[c], l.orders[o]);
  }

  lemma SettledVerified(l: Ledger, c: nat)
    requires Inv(l) && c < |l.collections| && SettlesAlone(l, c)
    ensures VerifiedAllocated(l, c) == l.orders[l.collections[c].order].expectedCod
  {
    assert RowOkAt(l, c);
  }

  /** An order is CASH_REMITTED exactly when its only live collection is REMITTED and answers for the
      order's expected cash, which its verified allocations then make up. */
  lemma CashRemittedExactly(l: Ledger, o: nat)
    requires Reachable(l) && o < |l.orders|
    ensures Inv(l)
    ensures l.orders[o].payment == CashRemitted <==>
      exists c :: 0 <= c < |l.collections| && l.collections[c].order == o && SettlesAlone(l, c)
    ensures forall c | 0 <= c < |l.collections| && l.collections[c].order == o && SettlesAlone(l, c) ::
      Paid(l, c) == l.orders[o].expectedCod
  {
    ReachableMarked(l);
    if l.orders[o].payment == CashRemitted { var c := RemittedSettles(l, o); }
    forall c | 0 <= c < |l.collections| && l.collections[c].order == o && SettlesAlone(l, c)
      ensures l.orders[o].payment == CashRemitted && Paid(l, c) == l.orders[o].expectedCod
    {
      assert Marked(l, c);
      SettledVerified(l, c);
      SumsAre(l, c);
    }
  }
}
