/** Verifying a remittance: the guards inside it cannot fire in a ledger that satisfies the
    invariant, and what it does to collections and orders keeps the invariant. */
module CashVerifyProof {
  import opened Wrappers
  import opened Sums
  import opened CashTypes
  import opened CashLedger
  import opened CashInvariant

  /** The ledger on which applyVerifiedAllocations runs: l, with remittance r perhaps already
      marked VERIFIED. */
  predicate Verifying(l: Ledger, b: Ledger, r: nat) {
    && Inv(l) && r < |l.remittances| && l.remittances[r].status != Verified
    && |b.remittances| == |l.remittances|
    && b == l.(remittances := b.remittances)
    && (forall q | 0 <= q < |l.remittances| && q != r :: b.remittances[q] == l.remittances[q])
  }

  lemma CountedIs(l: Ledger, b: Ledger, r: nat, c: nat)
    requires Verifying(l, b, r)
    ensures Counted(b, r, c) == Counted(l, r, c)
    ensures VerifiedAllocated(l, c) <= Counted(l, r, c) <= Allocated(l, c)
    ensures !HasItem(l, r, c) ==> Counted(l, r, c) == VerifiedAllocated(l, c)
  {
    SumEq(l.items, CountedFor(b.remittances, r, c), CountedFor(l.remittances, r, c));
    forall it | it in l.items
      ensures VerifiedTo(l.remittances, c)(it) <= CountedFor(l.remittances, r, c)(it) <= ToCollection(c)(it)
    {
      assert ItemOk(l, it);
    }
    SumLe(l.items, VerifiedTo(l.remittances, c), CountedFor(l.remittances, r, c));
    SumLe(l.items, CountedFor(l.remittances, r, c), ToCollection(c));
    if !HasItem(l, r, c) {
      SumEq(l.items, CountedFor(l.remittances, r, c), VerifiedTo(l.remittances, c));
    }
  }

  lemma CountedItem(l: Ledger, r: nat, i: nat)
    requires Inv(l) && i < |l.items| && l.items[i].remittance == r
    ensures Counted(l, r, l.items[i].collection) > 0
  {
    var c := l.items[i].collection;
    forall it | it in l.items ensures CountedFor(l.remittances, r, c)(it) >= 0 { assert ItemOk(l, it); }
    assert ItemOk(l, l.items[i]);
    SumAtLeast(l.items, CountedFor(l.remittances, r, c), i);
  }

  lemma AccountableIs(l: Ledger, c: nat)
    requires Inv(l) && c < |l.collections| && Recorded(l.collections[c]) && Settled(l.collections[c])
    ensures Accountable(l.collections[c]) == Ok(Balance(l.collections[c]))
    ensures ValidMillimes(Balance(l.collections[c]))
  {
    assert RowOkAt(l, c);
  }

  lemma NoItemError(l: Ledger, b: Ledger, r: nat, i: nat)
    requires Verifying(l, b, r) && i < |l.items| && l.items[i].remittance == r
    ensures ItemError(b, r, l.items[i].collection) == None
  {
    var c := l.items[i].collection;
    PendingItem(l, i);
    AccountableIs(l, c);
    CountedIs(l, b, r, c);
    assert RowOkAt(l, c);
  }

  lemma {:induction false} NoFirstItemError(l: Ledger, b: Ledger, r: nat, i: nat)
    requires Verifying(l, b, r) && WellFormed(b) && i <= |l.items|
    ensures FirstItemError(b, r, i) == None
    decreases |l.items| - i
  {
    if i < |l.items| {
      NoFirstItemError(l, b, r, i + 1);
      if l.items[i].remittance == r { NoItemError(l, b, r, i); }
    }
  }

  // Collections after marking.

  lemma MarkedRow(l: Ledger, b: Ledger, r: nat, c: nat)
    requires Verifying(l, b, r) && c < |l.collections|
    ensures var k, k' := l.collections[c], MarkRemitted(b, r)[c];
      && k' == k.(status := k'.status)
      && (k'.status == k.status ||
        (k'.status == Remitted && HasItem(l, r, c) && Recorded(k) && Settled(k) && Remittable(k.status)
                                     && Counted(l, r, c) == Balance(k)))
      && (HasItem(l, r, c) ==> Recorded(k) && Settled(k) && Remittable(k.status) && Counted(l, r, c) > 0
                                && (k'.status == Remitted <==> Counted(l, r, c) == Balance(k)))
  {
    CountedIs(l, b, r, c);
    if HasItem(l, r, c) {
      var it :| it in l.items && it.remittance == r && it.collection == c;
      var i :| 0 <= i < |l.items| && l.items[i] == it;
      PendingItem(l, i);
      CountedItem(l, r, i);
      AccountableIs(l, c);
    }
  }

  lemma MarkedExclusive(l: Ledger, b: Ledger, r: nat)
    requires Verifying(l, b, r)
    ensures forall c | 0 <= c < |l.collections| :: Recorded(MarkRemitted(b, r)[c]) == Recorded(l.collections[c])
    ensures forall c | 0 <= c < |l.collections| ::
      MarkRemitted(b, r)[c] == l.collections[c].(status := MarkRemitted(b, r)[c].status)
  {
    forall c | 0 <= c < |l.collections|
      ensures Recorded(MarkRemitted(b, r)[c]) == Recorded(l.collections[c])
      ensures MarkRemitted(b, r)[c] == l.collections[c].(status := MarkRemitted(b, r)[c].status)
    {
      MarkedRow(l, b, r, c);
    }
  }

  // Live collections of an order.

  lemma {:induction false} LiveMember(cols: seq<Collection>, o: nat, k: Collection)
    ensures k in Live(cols, o) <==> k in cols && k.order == o && k.status != Voided
  {
    if cols != [] {
      LiveMember(cols[..|cols| - 1], o, k);
      assert cols == cols[..|cols| - 1] + [cols[|cols| - 1]];
    }
  }

  lemma {:induction false} LiveNone(cols: seq<Collection>, o: nat)
    requires forall k | k in cols :: k.order != o || k.status == Voided
    ensures Live(cols, o) == []
  {
    if cols != [] {
      assert cols[|cols| - 1] in cols;
      LiveNone(cols[..|cols| - 1], o);
    }
  }

  /** When exactly one row of an order is live, it is the whole list. */
  lemma {:induction false} LiveOne(cols: seq<Collection>, o: nat, c: nat)
    requires c < |cols| && cols[c].order == o && cols[c].status != Voided
    requires forall i | 0 <= i < |cols| && i != c :: cols[i].order != o || cols[i].status == Voided
    ensures Live(cols, o) == [cols[c]]
  {
    var front := cols[..|cols| - 1];
    if c == |cols| - 1 {
      LiveNone(front, o);
    } else {
      assert cols[|cols| - 1].order != o || cols[|cols| - 1].status == Voided;
      LiveOne(front, o, c);
    }
  }

  /** An order whose live collections are all REMITTED has exactly one of them. */
  lemma RemittedLive(l: Ledger, cols: seq<Collection>, o: nat) returns (c: nat)
    requires Inv(l) && |cols| == |l.collections|
    requires forall i | 0 <= i < |cols| :: Recorded(cols[i]) == Recorded(l.collections[i])
    requires forall i | 0 <= i < |cols| :: cols[i].order == l.collections[i].order
    requires Live(cols, o) != [] && forall k | k in Live(cols, o) :: k.status == Remitted
    ensures c < |cols| && cols[c].order == o && cols[c].status == Remitted && Live(cols, o) == [cols[c]]
    ensures forall i | 0 <= i < |cols| && cols[i].order == o && i != c :: cols[i].status == Voided
  {
    var k := Live(cols, o)[0];
    LiveMember(cols, o, k);
    c :| 0 <= c < |cols| && cols[c] == k;
    forall i | 0 <= i < |cols| && cols[i].order == o && i != c ensures cols[i].status == Voided {
      LiveMember(cols, o, cols[i]);
    }
    LiveOne(cols, o, c);
  }

  lemma BalanceKept(k: Collection, k': Collection)
    requires k' == k.(status := k'.status)
    ensures Accountable(k') == Accountable(k) && Balance(k') == Balance(k) && Settled(k') == Settled(k)
  {}

  /** For a remitted collection standing alone, being fully remitted is having the order's amount. */
  lemma FullyRemittedOne(cols: seq<Collection>, o: nat, cod: int, k: Collection)
    requires Live(cols, o) == [k] && k.status == Remitted
    requires Accountable(k) == Ok(Balance(k)) && ValidMillimes(Balance(k))
    ensures FullyRemitted(cols, o, cod) == Ok(Balance(k) == cod)
  {
    var rows := [k];
    assert rows[..0] == [];
    assert Accountables(rows[..0]) == Ok([]);
    assert Accountables(rows) == Ok([] + [Balance(k)]);
    var values := [] + [Balance(k)];
    assert values == [Balance(k)] && values[..0] == [];
    assert Sum(values[..0], Identity()) == 0;
    assert Sum(values, Identity()) == Balance(k);
    assert SumMillimes(values) == Ok(Balance(k));
  }

  /** What the order-level test says: never an error, and true exactly when one remitted
      collection carries the order's whole amount and every other one is voided. */
  lemma OrderTest(l: Ledger, b: Ledger, r: nat, o: nat)
    requires Verifying(l, b, r) && o < |l.orders|
    ensures var cols := MarkRemitted(b, r); var cod := l.orders[o].expectedCod;
      && FullyRemitted(cols, o, cod).Ok?
      && (FullyRemitted(cols, o, cod) == Ok(true) <==>
            && (exists c | 0 <= c < |cols| :: cols[c].order == o && Settles(cols[c], l.orders[o]))
            && (forall c | 0 <= c < |cols| && cols[c].order == o ::
              cols[c].status == Voided || cols[c].status == Remitted))
  {
    var cols := MarkRemitted(b, r);
    MarkedExclusive(l, b, r);
    var live := Live(cols, o);
    if live == [] || exists k | k in live :: k.status != Remitted {
      if live == [] {
        forall c | 0 <= c < |cols| && cols[c].order == o ensures cols[c].status == Voided {
          LiveMember(cols, o, cols[c]);
        }
      } else {
        var k :| k in live && k.status != Remitted;
        LiveMember(cols, o, k);
      }
    } else {
      var c := RemittedLive(l, cols, o);
      MarkedRow(l, b, r, c);
      assert RowOkAt(l, c);
      AccountableIs(l, c);
      BalanceKept(l.collections[c], cols[c]);
      FullyRemittedOne(cols, o, l.orders[o].expectedCod, cols[c]);
    }
  }

  lemma {:induction false} NoFirstOrderError(l: Ledger, b: Ledger, r: nat, i: nat)
    requires Verifying(l, b, r) && WellFormed(b) && i <= |l.items|
    ensures FirstOrderError(b, r, MarkRemitted(b, r), i) == None
    decreases |l.items| - i
  {
    if i < |l.items| {
      NoFirstOrderError(l, b, r, i + 1);
      OrderTest(l, b, r, l.collections[l.items[i].collection].order);
    }
  }

  /** No guard inside applyVerifiedAllocations can fire. */
  lemma ApplyVerifiedSucceeds(l: Ledger, b: Ledger, r: nat)
    requires Verifying(l, b, r)
    ensures WellFormed(b)
    ensures ApplyVerified(b, r) ==
      Ok(b.(collections := MarkRemitted(b, r), orders := MarkOrders(b, r, MarkRemitted(b, r))))
  {
    NoFirstItemError(l, b, r, 0);
    NoFirstOrderError(l, b, r, 0);
  }

  // The ledger after verification.

  function Applied(b: Ledger, r: nat, row: Remittance): Ledger
    requires WellFormed(b) && r < |b.remittances|
  {
    b.(collections := MarkRemitted(b, r), orders := MarkOrders(b, r, MarkRemitted(b, r)),
      remittances := b.remittances[r := row])
  }

  lemma AppliedSums(l: Ledger, b: Ledger, r: nat, row: Remittance, c: nat)
    requires Verifying(l, b, r) && row.status == Verified && WellFormed(b)
    ensures VerifiedAllocated(Applied(b, r, row), c) == Counted(l, r, c)
    ensures Allocated(Applied(b, r, row), c) == Allocated(l, c)
  {
    SumEq(l.items, VerifiedTo(b.remittances[r := row], c), CountedFor(l.remittances, r, c));
  }

  /** An order that becomes CASH_REMITTED settles on an amount it expected, so its recorded
      collection is not a written-off one. */
  lemma RemittedPayment(l: Ledger, b: Ledger, r: nat, c: nat)
    requires Verifying(l, b, r) && WellFormed(b) && c < |l.collections| && Recorded(l.collections[c])
    ensures var o := l.collections[c].order; var o' := MarkOrders(b, r, MarkRemitted(b, r))[o];
      o' == l.orders[o] ||
        (o'.payment == CashRemitted && o'.expectedCod == l.orders[o].expectedCod &&
          Balance(l.collections[c]) == o'.expectedCod
                            && MarkRemitted(b, r)[c].status == Remitted)
  {
    var o := l.collections[c].order;
    OrderTest(l, b, r, o);
    MarkedExclusive(l, b, r);
    if MarkOrders(b, r, MarkRemitted(b, r))[o] != l.orders[o] {
      var w :| 0 <= w < |l.collections| && MarkRemitted(b, r)[w].order == o &&
        Settles(MarkRemitted(b, r)[w], l.orders[o]);
      assert Recorded(l.collections[w]) && w == c;
    }
  }

  lemma AppliedRow(l: Ledger, b: Ledger, r: nat, row: Remittance, c: nat)
    requires Verifying(l, b, r) && row.status == Verified && c < |l.collections|
    requires WellFormed(b) && WellFormed(Applied(b, r, row))
    ensures RowOkAt(Applied(b, r, row), c)
  {
    assert RowOkAt(l, c);
    MarkedRow(l, b, r, c);
    CountedIs(l, b, r, c);
    AppliedSums(l, b, r, row, c);
    if Recorded(l.collections[c]) { RemittedPayment(l, b, r, c); }
    assert Applied(b, r, row).collections == MarkRemitted(b, r);
  }

  lemma AppliedOrder(l: Ledger, b: Ledger, r: nat, row: Remittance, o: nat)
    requires Verifying(l, b, r) && row.status == Verified && o < |l.orders| && WellFormed(b)
    ensures OrderOk(Applied(b, r, row), o)
  {
    var l' := Applied(b, r, row);
    OrderTest(l, b, r, o);
    assert OrderOk(l, o);
    if l'.orders[o].payment == CashRemitted && l'.orders[o] == l.orders[o] {
      var w :| 0 <= w < |l.collections| && l.collections[w].order == o && Settles(l.collections[w], l.orders[o]);
      forall c | 0 <= c < |l.collections| && l.collections[c].order == o ensures l'.collections[c] == l.collections[c] {
        MarkedRow(l, b, r, c);
      }
      assert Settles(l'.collections[w], l'.orders[o]);
    } else if l'.orders[o].payment == CashRemitted {
      var w :| 0 <= w < |l'.collections| && l'.collections[w].order == o && Settles(l'.collections[w], l.orders[o]);
      assert Settles(l'.collections[w], l'.orders[o]);
    }
  }

  lemma AppliedInv(l: Ledger, b: Ledger, r: nat, row: Remittance)
    requires Verifying(l, b, r) && row.status == Verified && row.courier == l.remittances[r].courier
    requires RemittanceOk(row, Sum(l.items, OfRemittance(r)))
    ensures WellFormed(b) && Inv(Applied(b, r, row))
  {
    var l' := Applied(b, r, row);
    MarkedExclusive(l, b, r);
    assert WellFormed(l');
    forall c | 0 <= c < |l'.collections| ensures RowOkAt(l', c) { AppliedRow(l, b, r, row, c); }
    forall o | 0 <= o < |l'.orders| ensures OrderOk(l', o) { AppliedOrder(l, b, r, row, o); }
    forall it | it in l'.items ensures ItemOk(l', it) { assert ItemOk(l, it); }
  }
}
