/** Creating and submitting remittances keeps the invariant: allocations never outrun the
    accountable amount of the collections they draw on. */
module CashRemittanceProof {
  import opened Wrappers
  import opened Sums
  import opened CashTypes
  import opened CashLedger
  import opened CashInvariant

  lemma {:induction false} NewItemsTo(r: nat, allocations: seq<Allocation>, c: nat)
    requires Distinct(allocations)
    ensures Sum(NewItems(r, allocations), ToCollection(c)) == Requested(allocations, c).GetOr(0)
    ensures Requested(allocations, c).Some? <==> exists a :: a in allocations && a.collection == c
    ensures Requested(allocations, c).Some? ==>
      exists a :: a in allocations && a.collection == c && a.amount == Requested(allocations, c).value
  {
    if allocations != [] {
      var front, last := allocations[..|allocations| - 1], allocations[|allocations| - 1];
      NewItemsTo(r, front, c);
      assert NewItems(r, allocations)[..|allocations| - 1] == NewItems(r, front);
      assert allocations == front + [last];
      if last.collection == c {
        assert forall i | 0 <= i < |front| :: front[i] == allocations[i] && front[i].collection != c;
      }
    }
  }

  lemma {:induction false} NewItemsTotal(r: nat, allocations: seq<Allocation>)
    ensures Sum(NewItems(r, allocations), OfRemittance(r)) == Sum(Amounts(allocations), Identity())
  {
    if allocations != [] {
      var front := allocations[..|allocations| - 1];
      NewItemsTotal(r, front);
      assert NewItems(r, allocations)[..|allocations| - 1] == NewItems(r, front);
      assert Amounts(allocations)[..|allocations| - 1] == Amounts(front);
    }
  }

  lemma {:induction false} CheckedAllocation(l: Ledger, input: CreateInput, from: nat, c: nat)
    requires from <= c < |l.collections|
    requires FirstAllocationError(l, input, from) == None && Requested(input.allocations, c).Some?
    ensures AllocationError(l, input.courier, c, Requested(input.allocations, c).value) == None
    decreases c - from
  {
    if from < c { CheckedAllocation(l, input, from + 1, c); }
  }

  /** Visiting the collections in id order finds no error exactly when no allocation has one. */
  lemma {:induction false} NoAllocationError(l: Ledger, input: CreateInput, from: nat)
    requires from <= |l.collections| && Distinct(input.allocations)
    ensures FirstAllocationError(l, input, from) == None <==>
      forall a | a in input.allocations && from <= a.collection < |l.collections| ::
        AllocationError(l, input.courier, a.collection, a.amount) == None
    decreases |l.collections| - from
  {
    if from < |l.collections| {
      NoAllocationError(l, input, from + 1);
      NewItemsTo(0, input.allocations, from);
      forall a | a in input.allocations && a.collection == from
        ensures Requested(input.allocations, from) == Some(a.amount)
      {
        RequestedIs(input.allocations, a);
      }
    }
  }

  lemma {:induction false} RequestedIs(allocations: seq<Allocation>, a: Allocation)
    requires Distinct(allocations) && a in allocations
    ensures Requested(allocations, a.collection) == Some(a.amount)
  {
    var n := |allocations| - 1;
    var i :| 0 <= i <= n && allocations[i] == a;
    if i < n {
      assert allocations[..n][i] == a;
      RequestedIs(allocations[..n], a);
    }
  }

  /** The allocations of a new remittance only add to what its collections have promised. */
  lemma CreateSums(l: Ledger, input: CreateInput, c: nat)
    requires Inv(l) && CreateCheck(l, input) == Done && c < |l.collections|
    ensures var l' := Create(l, input).0;
      && Allocated(l', c) == Allocated(l, c) + Requested(input.allocations, c).GetOr(0)
      && VerifiedAllocated(l', c) == VerifiedAllocated(l, c)
  {
    var l' := Create(l, input).0;
    var added := NewItems(|l.remittances|, input.allocations);
    NewItemsTo(|l.remittances|, input.allocations, c);
    SumConcat(l.items, added, ToCollection(c));
    SumConcat(l.items, added, VerifiedTo(l'.remittances, c));
    VerifiedUnchanged(l, l'.remittances, c);
    NoItems(l.(items := added), VerifiedTo(l'.remittances, c));
  }

  lemma CreateRow(l: Ledger, input: CreateInput, c: nat)
    requires Inv(l) && CreateCheck(l, input) == Done && c < |l.collections|
    requires WellFormed(Create(l, input).0)
    ensures RowOkAt(Create(l, input).0, c)
  {
    assert RowOkAt(l, c);
    CreateSums(l, input, c);
    if Requested(input.allocations, c).Some? {
      NewItemsTo(|l.remittances|, input.allocations, c);
      CheckedAllocation(l, input, 0, c);
    }
  }

  lemma CreateWellFormed(l: Ledger, input: CreateInput)
    requires WellFormed(l) && CreateCheck(l, input) == Done
    ensures WellFormed(Create(l, input).0)
  {
    var l' := Create(l, input).0;
    forall i | 0 <= i < |l'.items|
      ensures l'.items[i].collection < |l'.collections| && l'.items[i].remittance < |l'.remittances|
    {
      if i >= |l.items| { assert input.allocations[i - |l.items|] in input.allocations; }
    }
  }

  lemma CreateItem(l: Ledger, input: CreateInput, it: Item)
    requires Inv(l) && CreateCheck(l, input) == Done && WellFormed(Create(l, input).0)
    requires it in Create(l, input).0.items
    ensures ItemOk(Create(l, input).0, it)
  {
    if it in l.items {
      assert ItemOk(l, it);
    } else {
      var added := NewItems(|l.remittances|, input.allocations);
      var i :| 0 <= i < |added| && added[i] == it;
      var a := input.allocations[i];
      assert a in input.allocations;
      NewItemsTo(|l.remittances|, input.allocations, a.collection);
      CheckedAllocation(l, input, 0, a.collection);
      assert Amounts(input.allocations)[i] == a.amount;
      assert ValidMillimes(a.amount);
    }
  }

  lemma CreateRemittanceRow(l: Ledger, input: CreateInput, r: nat)
    requires Inv(l) && CreateCheck(l, input) == Done && r <= |l.remittances|
    ensures var l' := Create(l, input).0; RemittanceOk(l'.remittances[r], Sum(l'.items, OfRemittance(r)))
  {
    var added := NewItems(|l.remittances|, input.allocations);
    SumConcat(l.items, added, OfRemittance(r));
    if r < |l.remittances| {
      NoItems(l.(items := added), OfRemittance(r));
    } else {
      NoItems(l, OfRemittance(r));
      NewItemsTotal(r, input.allocations);
    }
  }

  lemma OrdersUnchanged(l: Ledger, l': Ledger)
    requires OrdersOk(l) && l'.orders == l.orders && l'.collections == l.collections
    ensures OrdersOk(l')
  {
    forall p | 0 <= p < |l'.orders| ensures OrderOk(l', p) { assert OrderOk(l, p); }
  }

  lemma CreateInv(l: Ledger, input: CreateInput)
    requires Inv(l)
    ensures Inv(Create(l, input).0)
  {
    var (l', outcome) := Create(l, input);
    if outcome == Done {
      CreateWellFormed(l, input);
      forall c | 0 <= c < |l'.collections| ensures RowOkAt(l', c) { CreateRow(l, input, c); }
      forall it | it in l'.items ensures ItemOk(l', it) { CreateItem(l, input, it); }
      forall r | 0 <= r < |l'.remittances| ensures RemittanceOk(l'.remittances[r], Sum(l'.items, OfRemittance(r))) {
        CreateRemittanceRow(l, input, r);
      }
      OrdersUnchanged(l, l');
    }
  }

  /** Changing a remittance's other columns leaves the invariant to its own row. */
  lemma RemittanceRowInv(l: Ledger, r: nat, row: Remittance)
    requires Inv(l) && r < |l.remittances|
    requires row.courier == l.remittances[r].courier
    requires row.status != Verified && l.remittances[r].status != Verified
    requires RemittanceOk(row, Sum(l.items, OfRemittance(r)))
    ensures Inv(l.(remittances := l.remittances[r := row]))
  {
    var l' := l.(remittances := l.remittances[r := row]);
    forall c | 0 <= c < |l'.collections| ensures RowOkAt(l', c) {
      assert RowOkAt(l, c);
      VerifiedUnchanged(l, l'.remittances, c);
    }
    forall it | it in l'.items ensures ItemOk(l', it) { assert ItemOk(l, it); }
    OrdersUnchanged(l, l');
  }

  lemma SubmitInv(l: Ledger, r: nat, user: nat)
    requires Inv(l)
    ensures Inv(Submit(l, r, user).0)
  {
    if SubmitCheck(l, r) == Done {
      RemittanceRowInv(l, r, l.remittances[r].(status := Submitted, receivedBy := Some(user)));
    }
  }
}
