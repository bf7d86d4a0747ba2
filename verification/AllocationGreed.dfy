/** Which buckets the allocator takes from: none while one with a smaller id holds some of the
    variant, and what it gives out in order of variants, then of buckets. */
module AllocationGreed {
  import opened Wrappers
  import opened Sums
  import opened Sorting
  import opened Allocation

  // The buckets before one that is used.

  /** Once a line takes from a bucket, the earlier buckets of its variant are empty. */
  lemma {:induction false} FillGreedy(buckets: seq<Bucket>, variant: int, remaining: int, i: nat, k: nat, a: Allocation)
    requires DistinctBy(buckets, IdOf) && i < k < |buckets|
    requires buckets[i].variant == variant && buckets[k].id == a.item
    requires a in Fill(buckets, variant, remaining).allocations
    ensures Fill(buckets, variant, remaining).buckets[i].available <= 0
  {
    var q := Take(buckets[0], variant, remaining);
    assert IdOf(buckets[0]) != IdOf(buckets[k]);
    assert a in Fill(buckets[1..], variant, remaining - q).allocations;
    if i == 0 {
      if remaining - q <= 0 { FillNothing(buckets[1..], variant, remaining - q); }
    } else {
      DistinctTail(buckets);
      FillGreedy(buckets[1..], variant, remaining - q, i - 1, k - 1, a);
    }
  }

  lemma DistinctTail(buckets: seq<Bucket>)
    requires DistinctBy(buckets, IdOf) && buckets != []
    ensures DistinctBy(buckets[1..], IdOf)
  {
    forall i, j | 0 <= i < j < |buckets[1..]| ensures IdOf(buckets[1..][i]) != IdOf(buckets[1..][j]) {
      assert IdOf(buckets[i + 1]) != IdOf(buckets[j + 1]);
    }
  }

  /** With distinct ids the stock of an id is that of its bucket. */
  lemma StockOfBucket(buckets: seq<Bucket>, i: nat)
    requires DistinctBy(buckets, IdOf) && i < |buckets|
    ensures Stock(buckets, OfItem(buckets[i].id)) == Positive(buckets[i].available)
  {
    forall j | 0 <= j < |buckets| && j != i ensures Held(OfItem(buckets[i].id))(buckets[j]) == 0 {
      assert IdOf(buckets[j]) != IdOf(buckets[i]);
    }
    SumSingle(buckets, Held(OfItem(buckets[i].id)), i);
  }

  lemma FilledKeepsIds(buckets: seq<Bucket>, variant: int, remaining: int)
    ensures var after := Fill(buckets, variant, remaining).buckets;
      && (forall i | 0 <= i < |buckets| :: after[i].id == buckets[i].id && after[i].variant == buckets[i].variant)
      && (DistinctBy(buckets, IdOf) ==> DistinctBy(after, IdOf))
  {
    FillKeepsBuckets(buckets, variant, remaining);
    var after := Fill(buckets, variant, remaining).buckets;
    assert forall i | 0 <= i < |buckets| :: IdOf(after[i]) == IdOf(buckets[i]);
  }

  lemma HandedNonNegative(allocations: seq<Allocation>, which: Which)
    requires forall a | a in allocations :: a.quantity > 0
    ensures Handed(allocations, which) >= 0
  {
    SumNonNegative(allocations, Given(which));
  }

  /** What one line leaves of a bucket, all lines after it can at most use up. */
  lemma UsedUp(lines: seq<Request>, buckets: seq<Bucket>, i: nat)
    requires DistinctBy(buckets, IdOf) && i < |buckets| && lines != [] && FillLines(lines, buckets).Some?
    requires Fill(buckets, lines[0].variant, lines[0].quantity).buckets[i].available <= 0
    ensures Handed(FillLines(lines, buckets).value, OfItem(buckets[i].id)) == Positive(buckets[i].available)
  {
    var which, first := OfItem(buckets[i].id), Fill(buckets, lines[0].variant, lines[0].quantity);
    var rest := FillLines(lines[1..], first.buckets).value;
    FilledKeepsIds(buckets, lines[0].variant, lines[0].quantity);
    FillConserves(buckets, lines[0].variant, lines[0].quantity, which);
    StockOfBucket(buckets, i);
    StockOfBucket(first.buckets, i);
    FillLinesSound(lines[1..], first.buckets, 0, which);
    FillLinesShape(lines[1..], first.buckets);
    HandedNonNegative(rest, which);
    HandedConcat(first.allocations, rest, which);
  }

  lemma {:induction false} LinesGreedy(lines: seq<Request>, buckets: seq<Bucket>, i: nat, k: nat, a: Allocation)
    requires DistinctBy(buckets, IdOf) && i < k < |buckets| && FillLines(lines, buckets).Some?
    requires a in FillLines(lines, buckets).value && buckets[k].id == a.item && buckets[i].variant == a.variant
    ensures Handed(FillLines(lines, buckets).value, OfItem(buckets[i].id)) == Positive(buckets[i].available)
    decreases |lines|
  {
    var line, which := lines[0], OfItem(buckets[i].id);
    var first := Fill(buckets, line.variant, line.quantity);
    if a in first.allocations {
      FillNames(buckets, line.variant, line.quantity);
      FillGreedy(buckets, line.variant, line.quantity, i, k, a);
      UsedUp(lines, buckets, i);
    } else {
      var rest := FillLines(lines[1..], first.buckets).value;
      FilledKeepsIds(buckets, line.variant, line.quantity);
      LinesGreedy(lines[1..], first.buckets, i, k, a);
      FillConserves(buckets, line.variant, line.quantity, which);
      StockOfBucket(buckets, i);
      StockOfBucket(first.buckets, i);
      HandedConcat(first.allocations, rest, which);
    }
  }

  // The order of the allocations.

  predicate Ascends(a: Allocation, b: Allocation) {
    a.variant < b.variant || (a.variant == b.variant && a.item < b.item)
  }

  predicate Ascending(allocations: seq<Allocation>) {
    forall i, j | 0 <= i < j < |allocations| :: Ascends(allocations[i], allocations[j])
  }

  predicate IdsAscend(buckets: seq<Bucket>) { forall i, j | 0 <= i < j < |buckets| :: buckets[i].id < buckets[j].id }

  predicate VariantsAscend(lines: seq<Request>) {
    forall i, j | 0 <= i < j < |lines| :: lines[i].variant < lines[j].variant
  }

  lemma {:induction false} FillAscends(buckets: seq<Bucket>, variant: int, remaining: int)
    requires IdsAscend(buckets)
    ensures Ascending(Fill(buckets, variant, remaining).allocations)
  {
    if buckets != [] {
      var q := Take(buckets[0], variant, remaining);
      var rest := Fill(buckets[1..], variant, remaining - q).allocations;
      FillAscends(buckets[1..], variant, remaining - q);
      FillNames(buckets[1..], variant, remaining - q);
      forall j | 0 <= j < |rest| ensures rest[j].variant == variant && buckets[0].id < rest[j].item {
        assert rest[j] in rest;
      }
    }
  }

  lemma {:induction false} LinesAscend(lines: seq<Request>, buckets: seq<Bucket>)
    requires IdsAscend(buckets) && VariantsAscend(lines) && FillLines(lines, buckets).Some?
    ensures Ascending(FillLines(lines, buckets).value)
    decreases |lines|
  {
    if lines != [] {
      var line := lines[0];
      var first := Fill(buckets, line.variant, line.quantity);
      var rest := FillLines(lines[1..], first.buckets).value;
      FilledKeepsIds(buckets, line.variant, line.quantity);
      FillAscends(buckets, line.variant, line.quantity);
      FillNames(buckets, line.variant, line.quantity);
      LinesAscend(lines[1..], first.buckets);
      FillLinesShape(lines[1..], first.buckets);
      forall i, j | 0 <= i < |first.allocations| && 0 <= j < |rest| ensures Ascends(first.allocations[i], rest[j]) {
        assert first.allocations[i] in first.allocations && rest[j] in rest;
      }
    }
  }

  // The allocator.

  function FromItem(item: int): Allocation -> int { (a: Allocation) => if a.item == item then a.quantity else 0 }

  lemma SortedAscend(buckets: seq<Bucket>)
    requires DistinctBy(buckets, IdOf)
    ensures IdsAscend(Sort(buckets, ById)) && DistinctBy(Sort(buckets, ById), IdOf)
  {
    var sorted := Sort(buckets, ById);
    Orders();
    SortSorts(buckets, ById);
    SortDistinct(buckets, ById, IdOf);
    forall i, j | 0 <= i < j < |sorted| ensures sorted[i].id < sorted[j].id {
      assert ById(sorted[i], sorted[j]) && IdOf(sorted[i]) != IdOf(sorted[j]);
    }
  }

  lemma SortedGreedy(lines: seq<Request>, sorted: seq<Bucket>, a: Allocation, b: Bucket)
    requires DistinctBy(sorted, IdOf) && IdsAscend(sorted) && FillLines(lines, sorted).Some?
    requires a in FillLines(lines, sorted).value && b in sorted && b.variant == a.variant && b.id < a.item
    ensures Handed(FillLines(lines, sorted).value, OfItem(b.id)) == Positive(b.available)
  {
    FillLinesShape(lines, sorted);
    assert FromBuckets(a, lines, sorted);
    var k :| 0 <= k < |sorted| && sorted[k].id == a.item && sorted[k].variant == a.variant;
    var i :| 0 <= i < |sorted| && sorted[i] == b;
    LinesGreedy(lines, sorted, i, k, a);
  }

  /** Nothing is taken from a bucket while one of the same variant with a smaller id has any left. */
  lemma SmallerIdsFirst(requested: seq<Request>, buckets: seq<Bucket>, a: Allocation, b: Bucket)
    requires DistinctBy(buckets, IdOf) && Allocate(requested, buckets).Some?
    requires a in Allocate(requested, buckets).value && b in buckets && b.variant == a.variant && b.id < a.item
    ensures Sum(Allocate(requested, buckets).value, FromItem(b.id)) == if b.available > 0 then b.available else 0
  {
    SortedAscend(buckets);
    SortPermutes(buckets, ById);
    SortedGreedy(Sort(requested, ByVariant), Sort(buckets, ById), a, b);
    SumEq(Allocate(requested, buckets).value, FromItem(b.id), Given(OfItem(b.id)));
  }

  /** What is taken is listed by variant, then by bucket. */
  lemma AllocatesInOrder(requested: seq<Request>, buckets: seq<Bucket>)
    requires DistinctBy(requested, VariantOf) && DistinctBy(buckets, IdOf) && Allocate(requested, buckets).Some?
    ensures Ascending(Allocate(requested, buckets).value)
  {
    var lines := Sort(requested, ByVariant);
    Orders();
    SortedAscend(buckets);
    SortSorts(requested, ByVariant);
    SortDistinct(requested, ByVariant, VariantOf);
    forall i, j | 0 <= i < j < |lines| ensures lines[i].variant < lines[j].variant {
      assert ByVariant(lines[i], lines[j]) && VariantOf(lines[i]) != VariantOf(lines[j]);
    }
    LinesAscend(lines, Sort(buckets, ById));
  }
}
