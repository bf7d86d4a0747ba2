/** Greedy allocation of stock to the lines of a checkout: lines in variant order, each filled from
    the buckets in id order. */
module Allocation {
  import opened Wrappers
  import opened Sums
  import opened Sorting

  datatype Bucket = Bucket(id: int, variant: int, available: int)

  datatype Request = Request(variant: int, quantity: int)

  datatype Allocation = Allocation(item: int, variant: int, quantity: int)

  function Positive(x: int): int { if x > 0 then x else 0 }

  // What is asked for, what there is and what is handed out, over the buckets a selector picks.

  datatype Which = OfVariant(variant: int) | OfItem(item: int)

  predicate Selects(which: Which, item: int, variant: int) {
    match which
    case OfVariant(v) => variant == v
    case OfItem(i) => item == i
  }

  function Wanted(variant: int): Request -> int {
    (r: Request) => if r.variant == variant then Positive(r.quantity) else 0
  }

  function Held(which: Which): Bucket -> int {
    (b: Bucket) => if Selects(which, b.id, b.variant) then Positive(b.available) else 0
  }

  function Given(which: Which): Allocation -> int {
    (a: Allocation) => if Selects(which, a.item, a.variant) then a.quantity else 0
  }

  function Requested(lines: seq<Request>, variant: int): int {
    Sum(lines, Wanted(variant))
  }

  function Stock(buckets: seq<Bucket>, which: Which): int {
    Sum(buckets, Held(which))
  }

  function Handed(allocations: seq<Allocation>, which: Which): int {
    Sum(allocations, Given(which))
  }

  // The rule.

  function ById(a: Bucket, b: Bucket): bool { a.id <= b.id }

  function ByVariant(a: Request, b: Request): bool { a.variant <= b.variant }

  /** What one bucket gives to a line that still wants `remaining`. */
  function Take(b: Bucket, variant: int, remaining: int): int {
    if b.variant != variant || b.available <= 0 || remaining <= 0 then 0
    else if remaining < b.available then remaining else b.available
  }

  function Drawn(b: Bucket, quantity: int): Bucket { b.(available := b.available - quantity) }

  datatype Filled = Filled(buckets: seq<Bucket>, allocations: seq<Allocation>, remaining: int)

  function Taken(b: Bucket, variant: int, q: int): seq<Allocation> {
    if q > 0 then [Allocation(b.id, variant, q)] else []
  }

  function Fill(buckets: seq<Bucket>, variant: int, remaining: int): (r: Filled)
    ensures |r.buckets| == |buckets|
  {
    if buckets == [] then Filled([], [], remaining)
    else
      var q := Take(buckets[0], variant, remaining);
      var rest := Fill(buckets[1..], variant, remaining - q);
      Filled([Drawn(buckets[0], q)] + rest.buckets,
             Taken(buckets[0], variant, q) + rest.allocations, rest.remaining)
  }

  function Prepend(first: seq<Allocation>, rest: Option<seq<Allocation>>): Option<seq<Allocation>> {
    if rest.None? then None else Some(first + rest.value)
  }

  function FillLines(lines: seq<Request>, buckets: seq<Bucket>): Option<seq<Allocation>> {
    if lines == [] then Some([])
    else
      var first := Fill(buckets, lines[0].variant, lines[0].quantity);
      if first.remaining > 0 then None
      else Prepend(first.allocations, FillLines(lines[1..], first.buckets))
  }

  function Allocate(requested: seq<Request>, buckets: seq<Bucket>): Option<seq<Allocation>> {
    FillLines(Sort(requested, ByVariant), Sort(buckets, ById))
  }

  // One line.

  lemma StockFront(buckets: seq<Bucket>, which: Which)
    requires buckets != []
    ensures Stock(buckets, which) ==
      (if Selects(which, buckets[0].id, buckets[0].variant) then Positive(buckets[0].available) else 0) +
        Stock(buckets[1..], which)
  {
    SumFront(buckets, Held(which));
  }

  lemma HandedTaken(b: Bucket, variant: int, q: int, rest: seq<Allocation>)
    ensures Handed(Taken(b, variant, q) + rest, OfVariant(variant)) == Positive(q) + Handed(rest, OfVariant(variant))
  {
    SumConcat(Taken(b, variant, q), rest, Given(OfVariant(variant)));
    if q > 0 { SumAppend([], Allocation(b.id, variant, q), Given(OfVariant(variant))); }
  }

  /** One bucket and what a line takes of it, in front of the rest. */
  lemma ConserveStep(b: Bucket, variant: int, q: int, after: seq<Bucket>, handed: seq<Allocation>, which: Which)
    requires q == 0 || (0 < q <= b.available && b.variant == variant)
    ensures Stock([Drawn(b, q)] + after, which) + Handed(Taken(b, variant, q) + handed, which) ==
      Stock([b], which) + Stock(after, which) + Handed(handed, which)
  {
    StockFront([Drawn(b, q)] + after, which);
    StockFront([b], which);
    SumConcat(Taken(b, variant, q), handed, Given(which));
    if q > 0 { SumAppend([], Allocation(b.id, variant, q), Given(which)); }
  }

  lemma {:induction false} FillConserves(buckets: seq<Bucket>, variant: int, remaining: int, which: Which)
    ensures var r := Fill(buckets, variant, remaining);
      Stock(r.buckets, which) + Handed(r.allocations, which) == Stock(buckets, which)
  {
    if buckets != [] {
      var q := Take(buckets[0], variant, remaining);
      var rest := Fill(buckets[1..], variant, remaining - q);
      FillConserves(buckets[1..], variant, remaining - q, which);
      ConserveStep(buckets[0], variant, q, rest.buckets, rest.allocations, which);
      StockFront(buckets, which);
      StockFront([buckets[0]], which);
    }
  }

  lemma {:induction false} FillHands(buckets: seq<Bucket>, variant: int, remaining: int)
    ensures var r := Fill(buckets, variant, remaining);
      Handed(r.allocations, OfVariant(variant)) == Positive(remaining) - Positive(r.remaining)
  {
    if buckets != [] {
      var q := Take(buckets[0], variant, remaining);
      FillHands(buckets[1..], variant, remaining - q);
      HandedTaken(buckets[0], variant, q, Fill(buckets[1..], variant, remaining - q).allocations);
    }
  }

  lemma {:induction false} FillLeaves(buckets: seq<Bucket>, variant: int, remaining: int)
    ensures Positive(Fill(buckets, variant, remaining).remaining) ==
      Positive(remaining - Stock(buckets, OfVariant(variant)))
  {
    if buckets != [] {
      var q := Take(buckets[0], variant, remaining);
      FillLeaves(buckets[1..], variant, remaining - q);
      StockFront(buckets, OfVariant(variant));
      StockNonNegative(buckets[1..], OfVariant(variant));
    }
  }

  /** A line takes the smaller of what it wants and what its variant has left. */
  lemma FillMeets(buckets: seq<Bucket>, variant: int, remaining: int)
    ensures var r := Fill(buckets, variant, remaining);
      && Handed(r.allocations, OfVariant(variant)) == Positive(remaining) - Positive(r.remaining)
      && Positive(r.remaining) == Positive(remaining - Stock(buckets, OfVariant(variant)))
  {
    FillHands(buckets, variant, remaining);
    FillLeaves(buckets, variant, remaining);
  }

  predicate FromBucket(a: Allocation, buckets: seq<Bucket>) {
    exists i :: 0 <= i < |buckets| && buckets[i].id == a.item && buckets[i].variant == a.variant
  }

  /** Filling a line only draws amounts: buckets stay where they are. */
  lemma {:induction false} FillKeepsBuckets(buckets: seq<Bucket>, variant: int, remaining: int)
    ensures var r := Fill(buckets, variant, remaining);
      forall i | 0 <= i < |buckets| :: r.buckets[i].id == buckets[i].id && r.buckets[i].variant == buckets[i].variant
  {
    if buckets != [] { FillKeepsBuckets(buckets[1..], variant, remaining - Take(buckets[0], variant, remaining)); }
  }

  /** The allocations of a line name buckets of its variant, and every amount is positive. */
  lemma {:induction false} FillNames(buckets: seq<Bucket>, variant: int, remaining: int)
    ensures forall a | a in Fill(buckets, variant, remaining).allocations ::
      a.variant == variant && a.quantity > 0 && FromBucket(a, buckets)
  {
    if buckets != [] {
      var q := Take(buckets[0], variant, remaining);
      var rest := Fill(buckets[1..], variant, remaining - q).allocations;
      FillNames(buckets[1..], variant, remaining - q);
      forall a | a in rest ensures FromBucket(a, buckets) {
        var i :| 0 <= i < |buckets[1..]| && buckets[1..][i].id == a.item && buckets[1..][i].variant == a.variant;
        assert buckets[i + 1].id == a.item;
      }
      forall a | a in Taken(buckets[0], variant, q) ensures a.variant == variant && FromBucket(a, buckets) {
        assert buckets[0].id == a.item;
      }
    }
  }

  function ItemOf(a: Allocation): int { a.item }
  function IdOf(b: Bucket): int { b.id }
  function VariantOf(r: Request): int { r.variant }

  lemma OtherBuckets(buckets: seq<Bucket>, variant: int, remaining: int)
    requires buckets != [] && DistinctBy(buckets, IdOf)
    ensures forall a | a in Fill(buckets[1..], variant, remaining).allocations :: a.item != buckets[0].id
  {
    FillNames(buckets[1..], variant, remaining);
    forall a | a in Fill(buckets[1..], variant, remaining).allocations ensures a.item != buckets[0].id {
      var i :| 0 <= i < |buckets[1..]| && buckets[1..][i].id == a.item;
      assert IdOf(buckets[0]) != IdOf(buckets[i + 1]);
    }
  }

  lemma {:induction false} FillDistinct(buckets: seq<Bucket>, variant: int, remaining: int)
    requires DistinctBy(buckets, IdOf)
    ensures DistinctBy(Fill(buckets, variant, remaining).allocations, ItemOf)
  {
    if buckets != [] {
      var q := Take(buckets[0], variant, remaining);
      var rest := Fill(buckets[1..], variant, remaining - q).allocations;
      FillDistinct(buckets[1..], variant, remaining - q);
      OtherBuckets(buckets, variant, remaining - q);
      assert forall j | 0 <= j < |rest| :: rest[j] in rest;
    }
  }

  // All lines.

  lemma RequestedFront(lines: seq<Request>, variant: int)
    requires lines != []
    ensures Requested(lines, variant) ==
      (if lines[0].variant == variant then Positive(lines[0].quantity) else 0) + Requested(lines[1..], variant)
  {
    SumFront(lines, Wanted(variant));
  }

  lemma HandedConcat(a: seq<Allocation>, b: seq<Allocation>, which: Which)
    ensures Handed(a + b, which) == Handed(a, which) + Handed(b, which)
  {
    SumConcat(a, b, Given(which));
  }

  lemma {:induction false} NothingOfOthers(a: seq<Allocation>, variant: int, other: int)
    requires variant != other && forall x | x in a :: x.variant == variant
    ensures Handed(a, OfVariant(other)) == 0
  {
    if a != [] {
      assert a[|a| - 1] in a;
      NothingOfOthers(a[..|a| - 1], variant, other);
    }
  }

  lemma StockNonNegative(buckets: seq<Bucket>, which: Which)
    ensures Stock(buckets, which) >= 0
  {
    SumNonNegative(buckets, Held(which));
  }

  lemma RequestedNonNegative(lines: seq<Request>, variant: int)
    ensures Requested(lines, variant) >= 0
  {
    SumNonNegative(lines, Wanted(variant));
  }

  lemma {:induction false} FillLinesSound(lines: seq<Request>, buckets: seq<Bucket>, variant: int, which: Which)
    requires FillLines(lines, buckets).Some?
    ensures Handed(FillLines(lines, buckets).value, OfVariant(variant)) == Requested(lines, variant)
    ensures Handed(FillLines(lines, buckets).value, which) <= Stock(buckets, which)
  {
    if lines == [] {
      StockNonNegative(buckets, which);
    } else {
      var line := lines[0];
      var first := Fill(buckets, line.variant, line.quantity);
      var rest := FillLines(lines[1..], first.buckets).value;
      FillLinesSound(lines[1..], first.buckets, variant, which);
      FillConserves(buckets, line.variant, line.quantity, which);
      HandedConcat(first.allocations, rest, which);
      HandedConcat(first.allocations, rest, OfVariant(variant));
      RequestedFront(lines, variant);
      FillMeets(buckets, line.variant, line.quantity);
      FillNames(buckets, line.variant, line.quantity);
      if variant != line.variant { NothingOfOthers(first.allocations, line.variant, variant); }
    }
  }

  ghost predicate Short(lines: seq<Request>, buckets: seq<Bucket>) {
    exists v: int :: Requested(lines, v) > Stock(buckets, OfVariant(v))
  }

  lemma {:induction false} FillLinesComplete(lines: seq<Request>, buckets: seq<Bucket>)
    ensures FillLines(lines, buckets).None? ==> Short(lines, buckets)
  {
    if lines != [] && FillLines(lines, buckets).None? {
      var line := lines[0];
      var first := Fill(buckets, line.variant, line.quantity);
      FillMeets(buckets, line.variant, line.quantity);
      RequestedFront(lines, line.variant);
      RequestedNonNegative(lines[1..], line.variant);
      if first.remaining > 0 {
        assert Requested(lines, line.variant) > Stock(buckets, OfVariant(line.variant));
      } else {
        FillLinesComplete(lines[1..], first.buckets);
        var v :| Requested(lines[1..], v) > Stock(first.buckets, OfVariant(v));
        FillConserves(buckets, line.variant, line.quantity, OfVariant(v));
        FillNames(buckets, line.variant, line.quantity);
        if v != line.variant { NothingOfOthers(first.allocations, line.variant, v); }
        RequestedFront(lines, v);
        assert Requested(lines, v) > Stock(buckets, OfVariant(v));
      }
    }
  }

  /** Every allocation of a run over the lines names a bucket of the line's variant. */
  predicate FromBuckets(a: Allocation, lines: seq<Request>, buckets: seq<Bucket>) {
    && a.quantity > 0
    && (exists k :: 0 <= k < |lines| && lines[k].variant == a.variant)
    && FromBucket(a, buckets)
  }

  lemma {:induction false} FillLinesShape(lines: seq<Request>, buckets: seq<Bucket>)
    requires FillLines(lines, buckets).Some?
    ensures forall a | a in FillLines(lines, buckets).value :: FromBuckets(a, lines, buckets)
  {
    if lines != [] {
      var first := Fill(buckets, lines[0].variant, lines[0].quantity);
      var rest := FillLines(lines[1..], first.buckets).value;
      FillNames(buckets, lines[0].variant, lines[0].quantity);
      FillKeepsBuckets(buckets, lines[0].variant, lines[0].quantity);
      FillLinesShape(lines[1..], first.buckets);
      forall a | a in first.allocations + rest ensures FromBuckets(a, lines, buckets) {
        if a in first.allocations {
          assert lines[0].variant == a.variant;
        } else {
          assert FromBuckets(a, lines[1..], first.buckets);
          var k :| 0 <= k < |lines[1..]| && lines[1..][k].variant == a.variant;
          assert lines[k + 1].variant == a.variant;
          var i :| 0 <= i < |first.buckets| && first.buckets[i].id == a.item && first.buckets[i].variant == a.variant;
          assert buckets[i].id == a.item && buckets[i].variant == a.variant;
        }
      }
    }
  }

  lemma {:induction false} FillLinesDistinct(lines: seq<Request>, buckets: seq<Bucket>)
    requires FillLines(lines, buckets).Some?
    requires DistinctBy(lines, VariantOf) && DistinctBy(buckets, IdOf)
    ensures DistinctBy(FillLines(lines, buckets).value, ItemOf)
  {
    if lines != [] {
      var line := lines[0];
      var first := Fill(buckets, line.variant, line.quantity);
      var rest := FillLines(lines[1..], first.buckets).value;
      FillNames(buckets, line.variant, line.quantity);
      FillKeepsBuckets(buckets, line.variant, line.quantity);
      FillDistinct(buckets, line.variant, line.quantity);
      FillLinesDistinct(lines[1..], first.buckets);
      FillLinesShape(lines[1..], first.buckets);
      forall i, j | 0 <= i < |first.allocations| && 0 <= j < |rest| ensures first.allocations[i].item != rest[j].item {
        var a, b := first.allocations[i], rest[j];
        assert a in first.allocations && FromBuckets(b, lines[1..], first.buckets);
        var k :| 0 <= k < |lines[1..]| && lines[1..][k].variant == b.variant;
        assert VariantOf(lines[0]) != VariantOf(lines[k + 1]);
        var m :| 0 <= m < |buckets| && buckets[m].id == a.item && buckets[m].variant == line.variant;
        var n :| 0 <= n < |first.buckets| && first.buckets[n].id == b.item && first.buckets[n].variant == b.variant;
        assert m != n && IdOf(buckets[m]) != IdOf(buckets[n]);
      }
    }
  }

  // The allocator.

  lemma Orders()
    ensures TotalPreorder(ById) && TotalPreorder(ByVariant)
  {
  }

  lemma SortedMeasures(requested: seq<Request>, buckets: seq<Bucket>, variant: int, which: Which)
    ensures Requested(Sort(requested, ByVariant), variant) == Requested(requested, variant)
    ensures Stock(Sort(buckets, ById), which) == Stock(buckets, which)
  {
    SumSort(requested, ByVariant, Wanted(variant));
    SumSort(buckets, ById, Held(which));
  }

  /** The allocator gives up exactly when some variant is asked for more than all its buckets hold
      together, whatever the order of lines and buckets: greed never strands stock. */
  lemma AllocateFailsIffShort(requested: seq<Request>, buckets: seq<Bucket>)
    ensures Allocate(requested, buckets).None? <==> Short(requested, buckets)
  {
    var lines, sorted := Sort(requested, ByVariant), Sort(buckets, ById);
    FillLinesComplete(lines, sorted);
    forall v: int
      ensures Requested(lines, v) == Requested(requested, v) &&
        Stock(sorted, OfVariant(v)) == Stock(buckets, OfVariant(v))
    {
      SortedMeasures(requested, buckets, v, OfVariant(v));
    }
    if Allocate(requested, buckets).Some? {
      forall v: int ensures Requested(requested, v) <= Stock(buckets, OfVariant(v)) {
        FillLinesSound(lines, sorted, v, OfVariant(v));
      }
    }
  }

  /** Each variant is given exactly what was asked for, no bucket gives more than it holds, and
      every amount is positive and comes from a bucket of the variant it is given to. */
  lemma AllocateMeetsRequests(requested: seq<Request>, buckets: seq<Bucket>, variant: int, item: int)
    requires Allocate(requested, buckets).Some?
    ensures var r := Allocate(requested, buckets).value;
      && Handed(r, OfVariant(variant)) == Requested(requested, variant)
      && Handed(r, OfItem(item)) <= Stock(buckets, OfItem(item))
      && (forall a | a in r :: FromBuckets(a, requested, buckets))
  {
    var lines, sorted := Sort(requested, ByVariant), Sort(buckets, ById);
    FillLinesSound(lines, sorted, variant, OfItem(item));
    SortedMeasures(requested, buckets, variant, OfItem(item));
    FillLinesShape(lines, sorted);
    SortPermutes(requested, ByVariant);
    SortPermutes(buckets, ById);
    forall a | a in Allocate(requested, buckets).value ensures FromBuckets(a, requested, buckets) {
      assert FromBuckets(a, lines, sorted);
      var k :| 0 <= k < |lines| && lines[k].variant == a.variant;
      assert lines[k] in requested;
      var k' :| 0 <= k' < |requested| && requested[k'] == lines[k];
      var i :| 0 <= i < |sorted| && sorted[i].id == a.item && sorted[i].variant == a.variant;
      assert sorted[i] in buckets;
      var i' :| 0 <= i' < |buckets| && buckets[i'] == sorted[i];
    }
  }

  /** With distinct variants each bucket is used at most once. */
  lemma AllocateUsesBucketsOnce(requested: seq<Request>, buckets: seq<Bucket>)
    requires DistinctBy(requested, VariantOf) && DistinctBy(buckets, IdOf)
    requires Allocate(requested, buckets).Some?
    ensures DistinctBy(Allocate(requested, buckets).value, ItemOf)
  {
    SortDistinct(requested, ByVariant, VariantOf);
    SortDistinct(buckets, ById, IdOf);
    FillLinesDistinct(Sort(requested, ByVariant), Sort(buckets, ById));
  }

  lemma DistinctTies<T, K>(s: seq<T>, key: T -> K)
    requires DistinctBy(s, key)
    ensures forall x, y | x in s && y in s && key(x) == key(y) :: x == y
  {
  }

  /** Neither the order of the lines nor the order of the buckets changes the allocation. */
  lemma AllocateOrderIndependent(requested: seq<Request>, buckets: seq<Bucket>, requested': seq<Request>,
    buckets': seq<Bucket>)
    requires DistinctBy(requested, VariantOf) && DistinctBy(buckets, IdOf)
    requires multiset(requested) == multiset(requested') && multiset(buckets) == multiset(buckets')
    ensures Allocate(requested, buckets) == Allocate(requested', buckets')
  {
    Orders();
    DistinctTies(requested, VariantOf);
    DistinctTies(buckets, IdOf);
    SortOrderIndependent(requested, requested', ByVariant);
    SortOrderIndependent(buckets, buckets', ById);
  }

  // The loops.

  lemma {:induction false} FillNothing(buckets: seq<Bucket>, variant: int, remaining: int)
    requires remaining <= 0
    ensures Fill(buckets, variant, remaining) == Filled(buckets, [], remaining)
  {
    if buckets != [] { FillNothing(buckets[1..], variant, remaining); }
  }

  /** A line being filled: the first i buckets have had their turn, the others are as they were. */
  ghost predicate Filling(was: seq<Bucket>, line: Request, i: nat, now: seq<Bucket>, allocations: seq<Allocation>,
    remaining: int) {
    && i <= |was| == |now| && now[i..] == was[i..]
    && var rest := Fill(was[i..], line.variant, remaining);
       Fill(was, line.variant, line.quantity) ==
         Filled(now[..i] + rest.buckets, allocations + rest.allocations, rest.remaining)
  }

  lemma FillingStarts(was: seq<Bucket>, line: Request)
    ensures Filling(was, line, 0, was, [], line.quantity)
  {
    assert was[0..] == was;
  }

  lemma FillingStep(was: seq<Bucket>, line: Request, i: nat, now: seq<Bucket>, allocations: seq<Allocation>,
    remaining: int)
    requires i < |was| && Filling(was, line, i, now, allocations, remaining)
    ensures now[i] == was[i]
    ensures var q := Take(was[i], line.variant, remaining);
      Filling(was, line, i + 1, now[i := Drawn(was[i], q)], allocations + Taken(was[i], line.variant, q), remaining - q)
  {
    assert now[i] == now[i..][0] && was[i..][0] == was[i] && was[i..][1..] == was[i + 1..];
    var q := Take(was[i], line.variant, remaining);
    var row := Drawn(was[i], q);
    var next := now[i := row];
    var rest := Fill(was[i + 1..], line.variant, remaining - q);
    assert next[..i + 1] == now[..i] + [row];
    assert next[i + 1..] == was[i + 1..] by { assert now[i + 1..] == now[i..][1..]; }
    assert now[..i] + ([row] + rest.buckets) == next[..i + 1] + rest.buckets;
    assert allocations + (Taken(was[i], line.variant, q) + rest.allocations) == allocations +
      Taken(was[i], line.variant, q) + rest.allocations;
  }

  lemma FillingEnds(was: seq<Bucket>, line: Request, i: nat, now: seq<Bucket>, allocations: seq<Allocation>,
    remaining: int)
    requires Filling(was, line, i, now, allocations, remaining) && (remaining == 0 || i == |was|)
    ensures Fill(was, line.variant, line.quantity) == Filled(now, allocations, remaining)
  {
    if i < |was| { FillNothing(was[i..], line.variant, 0); }
    assert allocations + [] == allocations && now[..i] + now[i..] == now;
  }

  /** One bucket of the inner loop: buckets of other variants and empty ones are passed over. */
  method TakeFrom(ordered: array<Bucket>, i: nat, variant: int, remaining: int) returns (quantity: int)
    requires i < ordered.Length
    modifies ordered
    ensures quantity == Take(old(ordered[..])[i], variant, remaining)
    ensures ordered[..] == old(ordered[..])[i := Drawn(old(ordered[..])[i], quantity)]
  {
    var bucket := ordered[i];
    if bucket.variant != variant || bucket.available <= 0 { return 0; }
    quantity := if remaining < bucket.available then remaining else bucket.available;
    if quantity > 0 {
      ordered[i] := bucket.(available := bucket.available - quantity);
    } else {
      quantity := 0;
    }
  }

  /** Filling one line in place; the loop stops at the bucket that completes it. */
  method FillLine(ordered: array<Bucket>, line: Request) returns (allocations: seq<Allocation>, remaining: int)
    modifies ordered
    ensures Filled(ordered[..], allocations, remaining) == Fill(old(ordered[..]), line.variant, line.quantity)
  {
    ghost var was := ordered[..];
    allocations, remaining := [], line.quantity;
    var i := 0;
    FillingStarts(was, line);
    while i < ordered.Length
      invariant i <= ordered.Length == |was|
      invariant Filling(was, line, i, ordered[..], allocations, remaining)
    {
      FillingStep(was, line, i, ordered[..], allocations, remaining);
      var bucket := ordered[i];
      var quantity := TakeFrom(ordered, i, line.variant, remaining);
      allocations := allocations + Taken(bucket, line.variant, quantity);
      remaining := remaining - quantity;
      i := i + 1;
      if remaining == 0 { break; }
    }
    FillingEnds(was, line, i, ordered[..], allocations, remaining);
  }

  method AllocateInventory(requested: seq<Request>, buckets: seq<Bucket>) returns (r: Option<seq<Allocation>>)
    ensures r == Allocate(requested, buckets)
  {
    var sorted := Sort(buckets, ById);
    var ordered := new Bucket[|sorted|](i requires 0 <= i < |sorted| => sorted[i]);
    assert ordered[..] == sorted;
    var allocations: seq<Allocation> := [];
    var lines := Sort(requested, ByVariant);
    assert lines[0..] == lines && forall x: seq<Allocation> :: allocations + x == x;
    for k := 0 to |lines|
      invariant FillLines(lines, sorted) == Prepend(allocations, FillLines(lines[k..], ordered[..]))
    {
      assert lines[k..][0] == lines[k] && lines[k..][1..] == lines[k + 1..];
      var taken, remaining := FillLine(ordered, lines[k]);
      if remaining > 0 { return None; }
      assert forall x: seq<Allocation> :: allocations + (taken + x) == allocations + taken + x;
      allocations := allocations + taken;
    }
    assert lines[|lines|..] == [] && allocations + [] == allocations;
    return Some(allocations);
  }
}
