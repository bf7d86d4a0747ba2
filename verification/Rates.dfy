/** Choosing the delivery rates of a quote: eligible rates are ranked by how closely they match the
    address, then by priority, and the best one must be alone at the top. */
module Rates {
  import opened Wrappers
  import opened Sorting

  datatype RateType =
    | Base | Governorate | Delegation | Locality
    | RemoteSurcharge | WeightSurcharge | OversizeSurcharge | ExpressSurcharge

  datatype Rate = Rate(
    id: int, kind: RateType, priority: int, fee: int,
    zone: Option<int>, governorate: Option<int>, delegation: Option<int>, locality: Option<int>,
    minWeight: Option<int>, maxWeight: Option<int>, minOrder: Option<int>, maxOrder: Option<int>, maxCod: Option<int>)

  datatype Context = Context(zone: int, governorate: int, delegation: int, locality: int, order: int, weight: int,
    express: bool)

  datatype RateError = RateMissing | RateAmbiguous

  /** A candidate and how closely it matches the address. */
  datatype Ranked = Ranked(rate: Rate, rank: int)

  predicate WithinBounds(r: Rate, c: Context) {
    && (r.minOrder.None? || c.order >= r.minOrder.value)
    && (r.maxOrder.None? || c.order <= r.maxOrder.value)
    && (r.maxCod.None? || c.order <= r.maxCod.value)
    && (r.minWeight.None? || c.weight >= r.minWeight.value)
    && (r.maxWeight.None? || c.weight <= r.maxWeight.value)
  }

  function GeographicRank(r: Rate, c: Context): int {
    if r.locality == Some(c.locality) then 5
    else if r.delegation == Some(c.delegation) && r.locality.None? then 4
    else if r.governorate == Some(c.governorate) && r.delegation.None? && r.locality.None? then 3
    else if r.zone == Some(c.zone) && r.governorate.None? && r.delegation.None? && r.locality.None? then 2
    else if r.zone.None? && r.governorate.None? && r.delegation.None? && r.locality.None? then 1
    else -1
  }

  predicate BaseTypeMatchesRank(r: Rate, rank: int) {
    || (rank == 5 && r.kind == Locality)
    || (rank == 4 && r.kind == Delegation)
    || (rank == 3 && r.kind == Governorate)
    || ((rank == 2 || rank == 1) && r.kind == Base)
  }

  /** What a selection is after: the one base rate, or the surcharge of a kind. */
  datatype Wanted = BaseRate | Surcharge(kind: RateType)

  predicate Eligible(r: Rate, c: Context, w: Wanted) {
    var rank := GeographicRank(r, c);
    match w
    case BaseRate => rank > 0 && BaseTypeMatchesRank(r, rank) && WithinBounds(r, c)
    case Surcharge(kind) => r.kind == kind && rank > 0 && (kind != ExpressSurcharge || c.express) && WithinBounds(r, c)
  }

  function Candidates(rates: seq<Rate>, c: Context, w: Wanted): seq<Ranked> {
    if rates == [] then []
    else Candidates(rates[..|rates| - 1], c, w) + Candidate(rates[|rates| - 1], c, w)
  }

  function Candidate(r: Rate, c: Context, w: Wanted): seq<Ranked> {
    if Eligible(r, c, w) then [Ranked(r, GeographicRank(r, c))] else []
  }

  /** Best first: higher rank, then higher priority, then smaller id. */
  predicate Before(a: Ranked, b: Ranked) {
    || a.rank > b.rank
    || (a.rank == b.rank &&
      (a.rate.priority > b.rate.priority || (a.rate.priority == b.rate.priority && a.rate.id <= b.rate.id)))
  }

  predicate Tie(a: Ranked, b: Ranked) { a.rank == b.rank && a.rate.priority == b.rate.priority }

  predicate Lower(a: Ranked, b: Ranked) { a.rank < b.rank || (a.rank == b.rank && a.rate.priority < b.rate.priority) }

  function ChooseUnique(ranked: seq<Ranked>, required: bool): Result<Option<Rate>, RateError> {
    var sorted := Sort(ranked, Before);
    if sorted == [] then (if required then Err(RateMissing) else Ok(None))
    else if |sorted| > 1 && Tie(sorted[1], sorted[0]) then Err(RateAmbiguous)
    else Ok(Some(sorted[0].rate))
  }

  function SelectBaseRate(rates: seq<Rate>, c: Context): Result<Rate, RateError> {
    var selected :- ChooseUnique(Candidates(rates, c, BaseRate), true);
    if selected.None? then Err(RateMissing) else Ok(selected.value)
  }

  function SelectSurchargeRate(rates: seq<Rate>, c: Context, kind: RateType): Result<Option<Rate>, RateError> {
    ChooseUnique(Candidates(rates, c, Surcharge(kind)), false)
  }

  // The meaning of a choice.

  function Without<T>(s: seq<T>, i: nat): seq<T>
    requires i < |s|
  {
    s[..i] + s[i + 1..]
  }

  /** Position i is strictly above every other one. */
  ghost predicate AloneAtTop(s: seq<Ranked>, i: nat)
    requires i < |s|
  {
    forall y | y in Without(s, i) :: Lower(y, s[i])
  }

  /** Some position holding this rate is alone at the top. */
  ghost predicate IsMaximum(s: seq<Ranked>, r: Rate) {
    exists k: nat :: k < |s| && s[k].rate == r && AloneAtTop(s, k)
  }

  /** Position i is at the top and shares it. */
  ghost predicate SharedTop(s: seq<Ranked>, i: nat)
    requires i < |s|
  {
    (forall y | y in Without(s, i) :: !Lower(s[i], y)) && exists y :: y in Without(s, i) && Tie(y, s[i])
  }

  lemma WithoutPermutes<T>(s: seq<T>, i: nat)
    requires i < |s|
    ensures multiset(Without(s, i)) == multiset(s) - multiset{s[i]}
  {
    assert s == s[..i] + [s[i]] + s[i + 1..];
  }

  /** Both notions survive any reordering. */
  lemma TopMoves(s: seq<Ranked>, i: nat, t: seq<Ranked>) returns (k: nat)
    requires i < |s| && multiset(s) == multiset(t)
    ensures k < |t| && t[k] == s[i]
    ensures AloneAtTop(s, i) ==> AloneAtTop(t, k)
    ensures SharedTop(s, i) ==> SharedTop(t, k)
  {
    assert s[i] in multiset(t);
    k :| 0 <= k < |t| && t[k] == s[i];
    WithoutPermutes(s, i);
    WithoutPermutes(t, k);
    assert forall y :: y in Without(s, i) <==> y in multiset(Without(s, i));
    assert forall y :: y in Without(t, k) <==> y in multiset(Without(t, k));
  }

  lemma BeforeOrders()
    ensures TotalPreorder(Before)
  {
  }

  lemma SortedTop(s: seq<Ranked>)
    requires SortedBy(s, Before) && s != []
    ensures if |s| > 1 && Tie(s[1], s[0]) then SharedTop(s, 0) else AloneAtTop(s, 0)
  {
    assert Without(s, 0) == s[1..];
    if |s| > 1 {
      assert s[1] in s[1..];
      forall y | y in s[1..] ensures Before(s[0], y) && (y == s[1] || Before(s[1], y)) {
        var j :| 0 <= j < |s[1..]| && s[1..][j] == y;
        assert s[j + 1] == y;
      }
    }
  }

  lemma AloneExcludes(s: seq<Ranked>, i: nat, j: nat)
    requires i < |s| && j < |s| && AloneAtTop(s, i)
    ensures !SharedTop(s, j)
    ensures AloneAtTop(s, j) ==> s[i] == s[j]
  {
    if i != j {
      assert s[j] in Without(s, i) by { assert s[j] == Without(s, i)[if j < i then j else j - 1]; }
      assert s[i] in Without(s, j) by { assert s[i] == Without(s, j)[if i < j then i else i - 1]; }
    }
  }

  /** A choice is the unique maximum by rank and priority; it is ambiguous exactly on a tie at the
      top and missing exactly when there is no candidate. */
  lemma ChooseIsUniqueMaximum(s: seq<Ranked>, required: bool)
    ensures forall r :: ChooseUnique(s, required) == Ok(Some(r)) <==> IsMaximum(s, r)
    ensures ChooseUnique(s, required) == Err(RateAmbiguous) <==> exists i: nat :: i < |s| && SharedTop(s, i)
    ensures ChooseUnique(s, required) == Err(RateMissing) <==> required && s == []
    ensures ChooseUnique(s, required) == Ok(None) <==> !required && s == []
  {
    var sorted := Sort(s, Before);
    BeforeOrders();
    SortSorts(s, Before);
    SortPermutes(s, Before);
    if s != [] {
      SortedTop(sorted);
      var k := TopMoves(sorted, 0, s);
      forall i: nat | i < |s| ensures AloneAtTop(s, k) ==> !SharedTop(s, i) && (AloneAtTop(s, i) ==> s[i] == s[k]) {
        if AloneAtTop(s, k) { AloneExcludes(s, k, i); }
      }
      forall i: nat | i < |s| ensures SharedTop(s, k) ==> !AloneAtTop(s, i) {
        if AloneAtTop(s, i) { AloneExcludes(s, i, k); }
      }
    }
  }

  /** The choice does not depend on the order of the candidates. */
  lemma ChooseOrderIndependent(s: seq<Ranked>, t: seq<Ranked>, required: bool)
    requires multiset(s) == multiset(t)
    ensures ChooseUnique(s, required) == ChooseUnique(t, required)
  {
    ChooseIsUniqueMaximum(s, required);
    ChooseIsUniqueMaximum(t, required);
    assert |multiset(s)| == |s| && |multiset(t)| == |t|;
    if s != [] {
      match ChooseUnique(s, required)
      case Ok(Some(r)) =>
        var i: nat :| i < |s| && s[i].rate == r && AloneAtTop(s, i);
        var k := TopMoves(s, i, t);
      case Err(RateAmbiguous) =>
        var i: nat :| i < |s| && SharedTop(s, i);
        var k := TopMoves(s, i, t);
    }
  }

  // From rates to candidates.

  lemma {:induction false} CandidatesConcat(a: seq<Rate>, b: seq<Rate>, c: Context, w: Wanted)
    ensures Candidates(a + b, c, w) == Candidates(a, c, w) + Candidates(b, c, w)
  {
    if b == [] {
      assert a + b == a;
    } else {
      CandidatesConcat(a, b[..|b| - 1], c, w);
      assert (a + b)[..|a + b| - 1] == a + b[..|b| - 1];
    }
  }

  /** What one rate contributes, and what is left without it. */
  lemma CandidatesSplit(rates: seq<Rate>, i: nat, c: Context, w: Wanted)
    requires i < |rates|
    ensures Candidates(rates, c, w) == Candidates(rates[..i], c, w) + Candidate(rates[i], c, w) +
      Candidates(rates[i + 1..], c, w)
    ensures Candidates(Without(rates, i), c, w) == Candidates(rates[..i], c, w) + Candidates(rates[i + 1..], c, w)
  {
    CandidatesConcat(rates[..i + 1], rates[i + 1..], c, w);
    CandidatesConcat(rates[..i], rates[i + 1..], c, w);
    assert rates == rates[..i + 1] + rates[i + 1..];
    assert rates[..i + 1][..i] == rates[..i];
  }

  /** An eligible rate is a candidate, and leaving it out leaves out just that candidate. */
  lemma CandidateOf(rates: seq<Rate>, i: nat, c: Context, w: Wanted)
    requires i < |rates| && Eligible(rates[i], c, w)
    ensures var k := |Candidates(rates[..i], c, w)|;
      var all := Candidates(rates, c, w);
      k < |all| && all[k] == Ranked(rates[i], GeographicRank(rates[i], c)) &&
        Without(all, k) == Candidates(Without(rates, i), c, w)
  {
    CandidatesSplit(rates, i, c, w);
    var k := |Candidates(rates[..i], c, w)|;
    var all := Candidates(rates, c, w);
    assert Candidate(rates[i], c, w) == [Ranked(rates[i], GeographicRank(rates[i], c))];
    assert all[..k] == Candidates(rates[..i], c, w) && all[k + 1..] == Candidates(rates[i + 1..], c, w);
  }

  /** Every candidate comes from an eligible rate. */
  lemma {:induction false} OriginOf(rates: seq<Rate>, k: nat, c: Context, w: Wanted) returns (i: nat)
    requires k < |Candidates(rates, c, w)|
    ensures i < |rates| && Eligible(rates[i], c, w) && k == |Candidates(rates[..i], c, w)|
  {
    var front := rates[..|rates| - 1];
    if k < |Candidates(front, c, w)| {
      i := OriginOf(front, k, c, w);
      assert front[..i] == rates[..i];
    } else {
      i := |rates| - 1;
    }
  }

  lemma {:induction false} CandidateShape(rates: seq<Rate>, c: Context, w: Wanted)
    ensures forall y :: y in Candidates(rates, c, w) <==>
      (y.rate in rates && Eligible(y.rate, c, w) && y.rank == GeographicRank(y.rate, c))
  {
    if rates != [] {
      var front, last := rates[..|rates| - 1], rates[|rates| - 1];
      CandidateShape(front, c, w);
      assert forall r :: r in rates <==> r in front || r == last;
      assert forall y :: y in Candidate(last, c, w) <==>
        (Eligible(last, c, w) && y == Ranked(last, GeographicRank(last, c)));
    }
  }

  /** The rate is eligible and every other eligible rate of the list is strictly below it. */
  ghost predicate StrictlyBest(rates: seq<Rate>, i: nat, c: Context, w: Wanted)
    requires i < |rates|
  {
    && Eligible(rates[i], c, w)
    && forall x | x in Without(rates, i) && Eligible(x, c, w) :: Below(x, rates[i], c)
  }

  predicate Below(x: Rate, y: Rate, c: Context) {
    GeographicRank(x, c) < GeographicRank(y, c) ||
      (GeographicRank(x, c) == GeographicRank(y, c) && x.priority < y.priority)
  }

  /** No eligible rate is above this eligible one, and another one is level with it. */
  ghost predicate TiedBest(rates: seq<Rate>, i: nat, c: Context, w: Wanted)
    requires i < |rates|
  {
    && Eligible(rates[i], c, w)
    && (forall x | x in Without(rates, i) && Eligible(x, c, w) :: !Below(rates[i], x, c))
    && exists x :: x in Without(rates, i) && Eligible(x, c, w) && !Below(x, rates[i], c)
  }

  /** The candidates beside one rate are those of the other eligible rates. */
  lemma OthersOf(rates: seq<Rate>, i: nat, c: Context, w: Wanted)
    requires i < |rates| && Eligible(rates[i], c, w)
    ensures var k := |Candidates(rates[..i], c, w)|; var all := Candidates(rates, c, w);
      && k < |all| && all[k] == Ranked(rates[i], GeographicRank(rates[i], c))
      && (forall x | x in Without(rates, i) && Eligible(x, c, w) :: Ranked(x, GeographicRank(x, c)) in Without(all, k))
      && (forall y | y in Without(all, k) ::
            y.rate in Without(rates, i) && Eligible(y.rate, c, w) && y.rank == GeographicRank(y.rate, c))
  {
    CandidateOf(rates, i, c, w);
    CandidateShape(Without(rates, i), c, w);
  }

  lemma AloneOfRates(rates: seq<Rate>, i: nat, c: Context, w: Wanted)
    requires i < |rates| && Eligible(rates[i], c, w)
    ensures var k := |Candidates(rates[..i], c, w)|; var all := Candidates(rates, c, w);
      k < |all| && (AloneAtTop(all, k) <==> StrictlyBest(rates, i, c, w))
  {
    OthersOf(rates, i, c, w);
  }

  lemma SharedOfRates(rates: seq<Rate>, i: nat, c: Context, w: Wanted)
    requires i < |rates| && Eligible(rates[i], c, w)
    ensures var k := |Candidates(rates[..i], c, w)|; var all := Candidates(rates, c, w);
      k < |all| && (SharedTop(all, k) <==> TiedBest(rates, i, c, w))
  {
    OthersOf(rates, i, c, w);
  }

  lemma TopOfRates(rates: seq<Rate>, i: nat, c: Context, w: Wanted)
    requires i < |rates| && Eligible(rates[i], c, w)
    ensures var k := |Candidates(rates[..i], c, w)|;
      k < |Candidates(rates, c, w)| && StandsFor(rates, i, c, w, k)
  {
    OthersOf(rates, i, c, w);
    AloneOfRates(rates, i, c, w);
    SharedOfRates(rates, i, c, w);
  }

  /** Candidate k stands for the rate at position i. */
  ghost predicate StandsFor(rates: seq<Rate>, i: nat, c: Context, w: Wanted, k: nat)
    requires i < |rates| && k < |Candidates(rates, c, w)|
  {
    var all := Candidates(rates, c, w);
    && all[k].rate == rates[i]
    && (AloneAtTop(all, k) <==> StrictlyBest(rates, i, c, w))
    && (SharedTop(all, k) <==> TiedBest(rates, i, c, w))
  }

  lemma CandidateFor(rates: seq<Rate>, i: nat, c: Context, w: Wanted) returns (k: nat)
    requires i < |rates| && Eligible(rates[i], c, w)
    ensures k < |Candidates(rates, c, w)| && StandsFor(rates, i, c, w, k)
  {
    TopOfRates(rates, i, c, w);
    k := |Candidates(rates[..i], c, w)|;
  }

  lemma RateFor(rates: seq<Rate>, k: nat, c: Context, w: Wanted) returns (i: nat)
    requires k < |Candidates(rates, c, w)|
    ensures i < |rates| && Eligible(rates[i], c, w) && StandsFor(rates, i, c, w, k)
  {
    i := OriginOf(rates, k, c, w);
    TopOfRates(rates, i, c, w);
  }

  /** The selection over any list of rates: the strictly best eligible rate, AMBIGUOUS exactly when
      the best is tied, and nothing exactly when no rate is eligible. */
  lemma SelectionMeaning(rates: seq<Rate>, c: Context, w: Wanted, required: bool)
    ensures var choice := ChooseUnique(Candidates(rates, c, w), required);
      && (forall r :: choice == Ok(Some(r)) <==> IsBest(rates, r, c, w))
      && (choice == Err(RateAmbiguous) <==> exists i: nat :: i < |rates| && TiedBest(rates, i, c, w))
      && (choice == (if required then Err(RateMissing) else Ok(None)) <==> forall x | x in rates :: !Eligible(x, c, w))
  {
    var all := Candidates(rates, c, w);
    ChooseIsUniqueMaximum(all, required);
    forall r ensures IsMaximum(all, r) <==> IsBest(rates, r, c, w) { BestMeaning(rates, r, c, w); }
    TieMeaning(rates, c, w);
    NoneMeaning(rates, c, w);
  }

  /** This rate is listed once and beats every other eligible rate. */
  ghost predicate IsBest(rates: seq<Rate>, r: Rate, c: Context, w: Wanted) {
    exists i: nat :: i < |rates| && rates[i] == r && StrictlyBest(rates, i, c, w)
  }

  lemma BestMeaning(rates: seq<Rate>, r: Rate, c: Context, w: Wanted)
    ensures IsMaximum(Candidates(rates, c, w), r) <==> IsBest(rates, r, c, w)
  {
    var all := Candidates(rates, c, w);
    if i: nat :| i < |rates| && rates[i] == r && StrictlyBest(rates, i, c, w) {
      var k := CandidateFor(rates, i, c, w);
      assert AloneAtTop(all, k);
    }
    if k: nat :| k < |all| && all[k].rate == r && AloneAtTop(all, k) {
      var i := RateFor(rates, k, c, w);
      assert StrictlyBest(rates, i, c, w);
    }
  }

  lemma TieMeaning(rates: seq<Rate>, c: Context, w: Wanted)
    ensures var all := Candidates(rates, c, w);
      (exists k: nat :: k < |all| && SharedTop(all, k)) <==> (exists i: nat :: i < |rates| && TiedBest(rates, i, c, w))
  {
    var all := Candidates(rates, c, w);
    if i: nat :| i < |rates| && TiedBest(rates, i, c, w) {
      var k := CandidateFor(rates, i, c, w);
      assert SharedTop(all, k);
    }
    if k: nat :| k < |all| && SharedTop(all, k) {
      var i := RateFor(rates, k, c, w);
      assert TiedBest(rates, i, c, w);
    }
  }

  lemma NoneMeaning(rates: seq<Rate>, c: Context, w: Wanted)
    ensures Candidates(rates, c, w) == [] <==> forall x | x in rates :: !Eligible(x, c, w)
  {
    var all := Candidates(rates, c, w);
    CandidateShape(rates, c, w);
    if all != [] { assert all[0] in all; }
    assert forall x | x in rates && Eligible(x, c, w) :: Ranked(x, GeographicRank(x, c)) in all;
  }

  lemma SelectBaseRateMeaning(rates: seq<Rate>, c: Context)
    ensures forall r :: SelectBaseRate(rates, c) == Ok(r) <==> IsBest(rates, r, c, BaseRate)
    ensures SelectBaseRate(rates, c) == Err(RateAmbiguous) <==>
      exists i: nat :: i < |rates| && TiedBest(rates, i, c, BaseRate)
    ensures SelectBaseRate(rates, c) == Err(RateMissing) <==> forall x | x in rates :: !Eligible(x, c, BaseRate)
  {
    SelectionMeaning(rates, c, BaseRate, true);
    ChooseIsUniqueMaximum(Candidates(rates, c, BaseRate), true);
  }

  // Reordering and filtering the list.

  lemma MultisetMiddle<T>(a: seq<T>, x: seq<T>, b: seq<T>)
    ensures multiset(a + x + b) == multiset(a + b) + multiset(x)
  {
  }

  lemma {:induction false} CandidatesPermute(a: seq<Rate>, b: seq<Rate>, c: Context, w: Wanted)
    requires multiset(a) == multiset(b)
    ensures multiset(Candidates(a, c, w)) == multiset(Candidates(b, c, w))
  {
    assert |multiset(a)| == |a| && |multiset(b)| == |b|;
    if a != [] {
      var x := a[|a| - 1];
      assert x in multiset(b);
      var i :| 0 <= i < |b| && b[i] == x;
      var rest := Without(b, i);
      WithoutPermutes(b, i);
      WithoutPermutes(a, |a| - 1);
      assert Without(a, |a| - 1) == a[..|a| - 1];
      CandidatesPermute(a[..|a| - 1], rest, c, w);
      CandidatesSplit(b, i, c, w);
      MultisetMiddle(Candidates(b[..i], c, w), Candidate(x, c, w), Candidates(b[i + 1..], c, w));
    }
  }

  /** The database returns the rates in no particular order; no selection depends on it. */
  lemma SelectOrderIndependent(a: seq<Rate>, b: seq<Rate>, c: Context, kind: RateType)
    requires multiset(a) == multiset(b)
    ensures SelectBaseRate(a, c) == SelectBaseRate(b, c)
    ensures SelectSurchargeRate(a, c, kind) == SelectSurchargeRate(b, c, kind)
  {
    CandidatesPermute(a, b, c, BaseRate);
    CandidatesPermute(a, b, c, Surcharge(kind));
    ChooseOrderIndependent(Candidates(a, c, BaseRate), Candidates(b, c, BaseRate), true);
    ChooseOrderIndependent(Candidates(a, c, Surcharge(kind)), Candidates(b, c, Surcharge(kind)), false);
  }

  /** The geographic part of the database query. */
  predicate Prefiltered(r: Rate, c: Context) {
    || r.locality == Some(c.locality)
    || (r.delegation == Some(c.delegation) && r.locality.None?)
    || (r.governorate == Some(c.governorate) && r.delegation.None? && r.locality.None?)
    || (r.zone == Some(c.zone) && r.governorate.None? && r.delegation.None? && r.locality.None?)
    || (r.zone.None? && r.governorate.None? && r.delegation.None? && r.locality.None?)
  }

  function Filter(rates: seq<Rate>, c: Context): seq<Rate> {
    if rates == [] then []
    else Filter(rates[..|rates| - 1], c) + if Prefiltered(rates[|rates| - 1], c) then [rates[|rates| - 1]] else []
  }

  lemma {:induction false} FilterKeepsCandidates(rates: seq<Rate>, c: Context, w: Wanted)
    ensures Candidates(Filter(rates, c), c, w) == Candidates(rates, c, w)
  {
    if rates != [] {
      var front, last := rates[..|rates| - 1], rates[|rates| - 1];
      FilterKeepsCandidates(front, c, w);
      if Prefiltered(last, c) {
        assert (Filter(front, c) + [last])[..|Filter(front, c)|] == Filter(front, c);
      } else {
        assert Candidate(last, c, w) == [] && Filter(front, c) + [] == Filter(front, c);
      }
    }
  }

  /** The query keeps exactly the rates of positive rank, so filtering first changes no selection. */
  lemma FilterChangesNothing(rates: seq<Rate>, c: Context, kind: RateType)
    ensures forall r :: r in Filter(rates, c) <==> r in rates && GeographicRank(r, c) > 0
    ensures SelectBaseRate(Filter(rates, c), c) == SelectBaseRate(rates, c)
    ensures SelectSurchargeRate(Filter(rates, c), c, kind) == SelectSurchargeRate(rates, c, kind)
  {
    FilterMembers(rates, c);
    FilterKeepsCandidates(rates, c, BaseRate);
    FilterKeepsCandidates(rates, c, Surcharge(kind));
  }

  lemma {:induction false} FilterMembers(rates: seq<Rate>, c: Context)
    ensures forall r :: r in Filter(rates, c) <==> r in rates && GeographicRank(r, c) > 0
  {
    if rates != [] {
      var front, last := rates[..|rates| - 1], rates[|rates| - 1];
      FilterMembers(front, c);
      assert forall r :: r in rates <==> r in front || r == last;
      assert Prefiltered(last, c) <==> GeographicRank(last, c) > 0;
    }
  }
}
