/** The stock an order takes: all of every line, from rows that may be sold and hold it, smaller ids
    first. */
module OrderStock {
  import opened Wrappers
  import opened Sums
  import opened Sorting
  import opened CheckoutPricing
  import opened CheckoutProof
  import opened QuoteFacts
  import A = Allocation
  import G = AllocationGreed

  /** All stock rows of the variants. */
  function RowsOf(variants: seq<Variant>): seq<Inventory> {
    if variants == [] then [] else RowsOf(variants[..|variants| - 1]) + variants[|variants| - 1].inventory
  }

  function StockId(i: Inventory): int { i.id }

  /** The bucket of a stock row. */
  function BucketFor(v: Variant, i: Inventory, now: int): A.Bucket {
    A.Bucket(i.id, v.id, i.onHand - Sum(i.reservations, HeldBack(now)))
  }

  lemma {:induction false} RowBuckets(v: Variant, inventory: seq<Inventory>, now: int)
    requires BucketsOf(inventory, v.id, now).Ok?
    ensures forall b :: b in BucketsOf(inventory, v.id, now).value <==>
      exists i | i in inventory :: i.eligible && b == BucketFor(v, i, now)
  {
    if inventory != [] {
      var front, last := inventory[..|inventory| - 1], inventory[|inventory| - 1];
      RowBuckets(v, front, now);
      assert inventory == front + [last];
      if last.eligible {
        ReservedCheckedIff(last.reservations, now);
        SumEq(last.reservations, Counted(now), HeldBack(now));
      }
    }
  }

  lemma {:induction false} AllBuckets(fetched: seq<Variant>, now: int)
    requires Buckets(fetched, now).Ok?
    ensures forall b :: b in Buckets(fetched, now).value <==>
      exists v, i | v in fetched && i in v.inventory :: i.eligible && b == BucketFor(v, i, now)
  {
    if fetched != [] {
      var front, last := fetched[..|fetched| - 1], fetched[|fetched| - 1];
      AllBuckets(front, now);
      RowBuckets(last, last.inventory, now);
      assert fetched == front + [last];
    }
  }

  // Stock rows have distinct ids, and so do their buckets.

  /** Two lists joined have distinct ids only if both do and share none. */
  lemma DistinctJoin(a: seq<Inventory>, b: seq<Inventory>)
    requires DistinctBy(a + b, StockId)
    ensures DistinctBy(a, StockId) && DistinctBy(b, StockId)
    ensures forall x, y | x in a && y in b :: x.id != y.id
  {
    var all := a + b;
    forall i, j | 0 <= i < j < |a| ensures StockId(a[i]) != StockId(a[j]) { assert a[i] == all[i] && a[j] == all[j]; }
    forall i, j | 0 <= i < j < |b| ensures StockId(b[i]) != StockId(b[j]) {
      assert StockId(all[|a| + i]) != StockId(all[|a| + j]);
    }
    forall x, y | x in a && y in b ensures x.id != y.id {
      var i :| 0 <= i < |a| && a[i] == x;
      var j :| 0 <= j < |b| && b[j] == y;
      assert StockId(all[i]) != StockId(all[|a| + j]);
    }
  }

  lemma {:induction false} RowIds(v: Variant, inventory: seq<Inventory>, now: int)
    requires BucketsOf(inventory, v.id, now).Ok? && DistinctBy(inventory, StockId)
    ensures DistinctBy(BucketsOf(inventory, v.id, now).value, A.IdOf)
  {
    if inventory != [] {
      var front, last := inventory[..|inventory| - 1], inventory[|inventory| - 1];
      assert inventory == front + [last];
      DistinctJoin(front, [last]);
      RowIds(v, front, now);
      RowBuckets(v, front, now);
      var buckets := BucketsOf(front, v.id, now).value;
      forall j | 0 <= j < |buckets| ensures buckets[j].id != last.id {
        assert buckets[j] in buckets;
        var i :| i in front && i.eligible && buckets[j] == BucketFor(v, i, now);
        assert last in [last];
      }
    }
  }

  lemma {:induction false} RowsMembers(variants: seq<Variant>)
    ensures forall i :: i in RowsOf(variants) <==> exists v | v in variants :: i in v.inventory
  {
    if variants != [] {
      RowsMembers(variants[..|variants| - 1]);
      assert variants == variants[..|variants| - 1] + [variants[|variants| - 1]];
    }
  }

  lemma {:induction false} BucketIds(fetched: seq<Variant>, now: int)
    requires Buckets(fetched, now).Ok? && DistinctBy(RowsOf(fetched), StockId)
    ensures DistinctBy(Buckets(fetched, now).value, A.IdOf)
  {
    if fetched != [] {
      var front, last := fetched[..|fetched| - 1], fetched[|fetched| - 1];
      DistinctJoin(RowsOf(front), last.inventory);
      BucketIds(front, now);
      RowIds(last, last.inventory, now);
      AllBuckets(front, now);
      RowBuckets(last, last.inventory, now);
      RowsMembers(front);
      var before, after := Buckets(front, now).value, BucketsOf(last.inventory, last.id, now).value;
      forall i, j | 0 <= i < |before| && 0 <= j < |after| ensures before[i].id != after[j].id {
        assert before[i] in before && after[j] in after;
      }
    }
  }

  lemma {:induction false} FetchedRows(variants: seq<Variant>, items: seq<A.Request>)
    requires DistinctBy(RowsOf(variants), StockId)
    ensures DistinctBy(RowsOf(Fetch(variants, items)), StockId)
  {
    if variants != [] {
      var front, last := variants[..|variants| - 1], variants[|variants| - 1];
      var fetched := Fetch(front, items);
      DistinctJoin(RowsOf(front), last.inventory);
      FetchedRows(front, items);
      RowsMembers(front);
      RowsMembers(fetched);
      assert (fetched + [last])[..|fetched|] == fetched && fetched + [] == fetched;
      var rows, more := RowsOf(fetched), last.inventory;
      forall i, j | 0 <= i < |rows| && 0 <= j < |more| ensures rows[i].id != more[j].id {
        assert rows[i] in rows && more[j] in more && rows[i] in RowsOf(front);
      }
    }
  }

  // What an order takes.

  function ForVariant(variant: int): A.Allocation -> int {
    (a: A.Allocation) => if a.variant == variant then a.quantity else 0
  }

  /** The allocation is of a row of the variant of an item, and the row may be sold. */
  ghost predicate FromRow(items: seq<A.Request>, vs: seq<Variant>, a: A.Allocation)
    requires |vs| == |items|
  {
    exists k, i | 0 <= k < |items| && i in vs[k].inventory ::
      items[k].variant == a.variant && i.id == a.item && i.eligible
  }

  /** These are the variants fetched for the items, one each. */
  predicate FetchedFor(fetched: seq<Variant>, items: seq<A.Request>, vs: seq<Variant>) {
    && DistinctBy(fetched, VariantId) && |vs| == |items|
    && forall k | 0 <= k < |items| :: Find(fetched, items[k].variant) == Some(vs[k])
  }

  lemma OneOfId(fetched: seq<Variant>, v: Variant, w: Variant)
    requires DistinctBy(fetched, VariantId) && v in fetched && w in fetched && v.id == w.id
    ensures v == w
  {
    var i :| 0 <= i < |fetched| && fetched[i] == v;
    var j :| 0 <= j < |fetched| && fetched[j] == w;
    assert VariantId(fetched[i]) == VariantId(fetched[j]);
  }

  lemma BucketOfRow(fetched: seq<Variant>, now: int, v: Variant, i: Inventory)
    requires Buckets(fetched, now).Ok? && DistinctBy(Buckets(fetched, now).value, A.IdOf)
    requires v in fetched && i in v.inventory && i.eligible
    ensures BucketFor(v, i, now) in Buckets(fetched, now).value
    ensures A.Stock(Buckets(fetched, now).value, A.OfItem(i.id)) == FreeIn(now)(i)
  {
    AllBuckets(fetched, now);
    var buckets := Buckets(fetched, now).value;
    assert BucketFor(v, i, now) in buckets;
    var m :| 0 <= m < |buckets| && buckets[m] == BucketFor(v, i, now);
    G.StockOfBucket(buckets, m);
  }

  lemma AllocatedFromRow(fetched: seq<Variant>, items: seq<A.Request>, vs: seq<Variant>, now: int, a: A.Allocation)
    requires FetchedFor(fetched, items, vs) && Buckets(fetched, now).Ok?
    requires A.FromBuckets(a, items, Buckets(fetched, now).value)
    ensures FromRow(items, vs, a)
  {
    AllBuckets(fetched, now);
    var buckets := Buckets(fetched, now).value;
    var k :| 0 <= k < |items| && items[k].variant == a.variant;
    var m :| 0 <= m < |buckets| && buckets[m].id == a.item && buckets[m].variant == a.variant;
    assert buckets[m] in buckets;
    var v, i :| v in fetched && i in v.inventory && i.eligible && buckets[m] == BucketFor(v, i, now);
    OneOfId(fetched, v, vs[k]);
  }

  lemma TakenForItem(s: Snapshot, r: Request, o: Order, k: nat)
    requires OrderSpec(s, r) == Ok(o) && k < |r.items| && r.items[k].quantity >= 0
    ensures Sum(o.allocations, ForVariant(r.items[k].variant)) == r.items[k].quantity
  {
    OrderAllocations(s, r, r.items[k].variant, 0);
    RequestedOnce(r.items, k);
    SumEq(o.allocations, ForVariant(r.items[k].variant), A.Given(A.OfVariant(r.items[k].variant)));
  }

  lemma TakenFromRow(items: seq<A.Request>, buckets: seq<A.Bucket>, allocations: seq<A.Allocation>, id: int)
    requires A.Allocate(items, buckets) == Some(allocations)
    ensures Sum(allocations, G.FromItem(id)) <= A.Stock(buckets, A.OfItem(id))
  {
    A.AllocateMeetsRequests(items, buckets, 0, id);
    SumEq(allocations, G.FromItem(id), A.Given(A.OfItem(id)));
  }

  /** An order takes for each item what it asks for, from rows of its variant that may be sold. */
  lemma OrderTakes(s: Snapshot, r: Request, o: Order, vs: seq<Variant>)
    requires OrderSpec(s, r) == Ok(o) && DistinctBy(s.variants, VariantId)
    requires |vs| == |r.items| && forall k | 0 <= k < |r.items| :: r.items[k].quantity >= 0
    requires forall k | 0 <= k < |r.items| :: Find(Fetch(s.variants, r.items), r.items[k].variant) == Some(vs[k])
    ensures forall k | 0 <= k < |r.items| ::
      Sum(o.allocations, ForVariant(r.items[k].variant)) == r.items[k].quantity
    ensures forall a | a in o.allocations :: a.quantity > 0 && FromRow(r.items, vs, a)
  {
    var fetched := Fetch(s.variants, r.items);
    var buckets := Buckets(fetched, s.now).value;
    FetchDistinct(s.variants, r.items);
    forall k | 0 <= k < |r.items| ensures Sum(o.allocations, ForVariant(r.items[k].variant)) == r.items[k].quantity {
      TakenForItem(s, r, o, k);
    }
    forall a | a in o.allocations ensures a.quantity > 0 && FromRow(r.items, vs, a) {
      A.AllocateMeetsRequests(r.items, buckets, 0, 0);
      AllocatedFromRow(fetched, r.items, vs, s.now, a);
    }
  }

  /** It takes no more of a row than is free of it, and nothing while a row of the variant with a
      smaller id has any left. */
  lemma OrderTakesInOrder(s: Snapshot, r: Request, o: Order, v: Variant, i: Inventory)
    requires OrderSpec(s, r) == Ok(o) && DistinctBy(RowsOf(s.variants), StockId)
    requires v in Fetch(s.variants, r.items) && i in v.inventory && i.eligible
    ensures Sum(o.allocations, G.FromItem(i.id)) <= FreeIn(s.now)(i)
    ensures (exists a | a in o.allocations :: a.variant == v.id && i.id < a.item) ==>
      Sum(o.allocations, G.FromItem(i.id)) == FreeIn(s.now)(i)
  {
    var fetched := Fetch(s.variants, r.items);
    var buckets := Buckets(fetched, s.now).value;
    FetchedRows(s.variants, r.items);
    BucketIds(fetched, s.now);
    BucketOfRow(fetched, s.now, v, i);
    TakenFromRow(r.items, buckets, o.allocations, i.id);
    if a :| a in o.allocations && a.variant == v.id && i.id < a.item {
      G.SmallerIdsFirst(r.items, buckets, a, BucketFor(v, i, s.now));
    }
  }
}
