/** The price filter of the public catalogue: a database predicate, under the three-valued logic of
    SQL, against the lowest price the catalogue shows. */
module PriceFilter {
  import opened Wrappers
  import opened Sorting

  datatype Variant = Variant(published: bool, archived: bool, deleted: bool, price: int, promotion: Option<int>)

  datatype Product = Product(base: Option<int>, promotion: Option<int>, variants: seq<Variant>)

  // Predicates the database evaluates.

  datatype Truth = True | False | Unknown

  datatype Field = ListPrice | PromotionalPrice

  datatype Comparator = Lt | Lte | Gt

  datatype Operand = Amount(value: int) | Reference(field: Field)

  datatype Where =
    | Always
    | And(left: Where, right: Where)
    | Or(left: Where, right: Where)
    | Not(inner: Where)
    | IsNull(field: Field)
    | IsNotNull(field: Field)
    | Compare(field: Field, comparator: Comparator, operand: Operand)
    | Shown
    | SomeVariant(inner: Where)
    | NoVariant(inner: Where)

  /** The columns a predicate looks at; shown stands for published, not archived, not deleted. */
  datatype Row = Row(list: Option<int>, promotion: Option<int>, shown: bool)

  function Truthful(b: bool): Truth { if b then True else False }

  function Conjunction(a: Truth, b: Truth): Truth {
    if a == False || b == False then False else if a == True && b == True then True else Unknown
  }

  function Disjunction(a: Truth, b: Truth): Truth {
    if a == True || b == True then True else if a == False && b == False then False else Unknown
  }

  function Negation(a: Truth): Truth { if a == True then False else if a == False then True else Unknown }

  function Column(row: Row, field: Field): Option<int> { if field == ListPrice then row.list else row.promotion }

  function Comparison(a: Option<int>, comparator: Comparator, b: Option<int>): Truth {
    if a.None? || b.None? then Unknown
    else
      match comparator
      case Lt => Truthful(a.value < b.value)
      case Lte => Truthful(a.value <= b.value)
      case Gt => Truthful(a.value > b.value)
  }

  /** A row is selected when its predicate is true, not merely unknown. */
  function Eval(w: Where, row: Row, variants: seq<Row>): Truth
    decreases w
  {
    match w
    case Always => True
    case And(l, r) => Conjunction(Eval(l, row, variants), Eval(r, row, variants))
    case Or(l, r) => Disjunction(Eval(l, row, variants), Eval(r, row, variants))
    case Not(inner) => Negation(Eval(inner, row, variants))
    case IsNull(f) => Truthful(Column(row, f).None?)
    case IsNotNull(f) => Truthful(Column(row, f).Some?)
    case Compare(f, c, Amount(n)) => Comparison(Column(row, f), c, Some(n))
    case Compare(f, c, Reference(g)) => Comparison(Column(row, f), c, Column(row, g))
    case Shown => Truthful(row.shown)
    case SomeVariant(inner) => Truthful(exists v | v in variants :: Eval(inner, v, []) == True)
    case NoVariant(inner) => Truthful(forall v | v in variants :: Eval(inner, v, []) != True)
  }

  /** AND over a list of clauses. */
  function All(clauses: seq<Where>): Where {
    if clauses == [] then Always else And(All(clauses[..|clauses| - 1]), clauses[|clauses| - 1])
  }

  // The filter.

  /** A promotion that counts, compared with the amount, or a list price without one. */
  function EffectivePrice(comparator: Comparator, amount: int): Where {
    Or(And(And(IsNotNull(PromotionalPrice), Compare(PromotionalPrice, Gt, Amount(0))),
           And(Compare(PromotionalPrice, Lte, Reference(ListPrice)),
             Compare(PromotionalPrice, comparator, Amount(amount)))),
       And(And(Compare(ListPrice, Gt, Amount(0)), Compare(ListPrice, comparator, Amount(amount))),
           Or(Or(IsNull(PromotionalPrice), Compare(PromotionalPrice, Lte, Amount(0))),
              Compare(PromotionalPrice, Gt, Reference(ListPrice)))))
  }

  function PublicVariantEffectivePrice(comparator: Comparator, amount: int): Where {
    And(Shown, EffectivePrice(comparator, amount))
  }

  function MinimumClauses(minimum: int): seq<Where> {
    [Not(EffectivePrice(Lt, minimum)), NoVariant(PublicVariantEffectivePrice(Lt, minimum))]
  }

  function MaximumClause(maximum: int): Where {
    Or(EffectivePrice(Lte, maximum), SomeVariant(PublicVariantEffectivePrice(Lte, maximum)))
  }

  function PriceWhere(minimum: Option<int>, maximum: Option<int>): Where {
    All((if minimum.Some? && minimum.value > 0 then MinimumClauses(minimum.value) else []) +
        (if maximum.Some? then [MaximumClause(maximum.value)] else []))
  }

  method BuildEffectiveProductPriceWhere(minimum: Option<int>, maximum: Option<int>) returns (w: Where)
    ensures w == PriceWhere(minimum, maximum)
  {
    var clauses: seq<Where> := [];
    if minimum.Some? && minimum.value > 0 {
      clauses := clauses + [Not(EffectivePrice(Lt, minimum.value))];
      clauses := clauses + [NoVariant(PublicVariantEffectivePrice(Lt, minimum.value))];
    }
    if maximum.Some? {
      clauses := clauses + [MaximumClause(maximum.value)];
    }
    assert clauses == (if minimum.Some? && minimum.value > 0 then MinimumClauses(minimum.value) else []) +
                      (if maximum.Some? then [MaximumClause(maximum.value)] else []);
    return All(clauses);
  }

  predicate IsShown(v: Variant) { v.published && !v.archived && !v.deleted }

  function VariantRow(v: Variant): Row { Row(Some(v.price), v.promotion, IsShown(v)) }

  function VariantRows(variants: seq<Variant>): (r: seq<Row>)
    ensures |r| == |variants|
  {
    seq(|variants|, i requires 0 <= i < |variants| => VariantRow(variants[i]))
  }

  predicate Selects(w: Where, p: Product) { Eval(w, Row(p.base, p.promotion, true), VariantRows(p.variants)) == True }

  // The displayed price.

  datatype Price = Price(list: int, promotional: Option<int>, effective: int)

  /** A variant the public catalogue loads. */
  predicate Sellable(v: Variant) { IsShown(v) && v.price > 0 && (v.promotion.None? || v.promotion.value > 0) }

  function PriceOf(list: int, promotion: Option<int>): Price {
    if promotion.Some? && 0 < promotion.value <= list
    then Price(list, promotion, promotion.value) else Price(list, None, list)
  }

  predicate Cheaper(a: Price, b: Price) {
    a.effective < b.effective || (a.effective == b.effective && a.list <= b.list)
  }

  function Loaded(variants: seq<Variant>): seq<Variant> {
    if variants == [] then []
    else
      var last := variants[|variants| - 1];
      Loaded(variants[..|variants| - 1]) + if Sellable(last) then [last] else []
  }

  function VariantPrices(loaded: seq<Variant>): seq<Price> {
    if loaded == [] then []
    else
      VariantPrices(loaded[..|loaded| - 1]) +
        if loaded[|loaded| - 1].price > 0
          then [PriceOf(loaded[|loaded| - 1].price, loaded[|loaded| - 1].promotion)] else []
  }

  function Candidates(p: Product): seq<Price> {
    (if p.base.Some? && p.base.value > 0 then [PriceOf(p.base.value, p.promotion)] else []) +
      VariantPrices(Loaded(p.variants))
  }

  function DisplayPrice(p: Product): Price {
    var sorted := Sort(Candidates(p), Cheaper);
    if sorted == [] then Price(0, None, 0) else sorted[0]
  }

  method ComputeDisplayPrice(p: Product) returns (price: Price)
    ensures price == DisplayPrice(p)
  {
    var candidates: seq<Price> := [];
    if p.base.Some? && p.base.value > 0 {
      var promotional :=
        if p.promotion.Some? && p.promotion.value > 0 && p.promotion.value <= p.base.value then p.promotion else None;
      candidates := candidates + [Price(p.base.value, promotional, promotional.GetOr(p.base.value))];
    }
    var first := candidates;
    var loaded := Loaded(p.variants);
    for k := 0 to |loaded|
      invariant candidates == first + VariantPrices(loaded[..k])
    {
      assert loaded[..k + 1][..k] == loaded[..k];
      var variant := loaded[k];
      if variant.price <= 0 { continue; }
      var promotional :=
        if variant.promotion.Some? && variant.promotion.value > 0 && variant.promotion.value <= variant.price
        then variant.promotion else None;
      candidates := candidates + [Price(variant.price, promotional, promotional.GetOr(variant.price))];
    }
    assert loaded[..|loaded|] == loaded;
    var sorted := Sort(candidates, Cheaper);
    return if sorted == [] then Price(0, None, 0) else sorted[0];
  }

  // The displayed price is the lowest candidate.

  lemma {:induction false} LoadedMembers(variants: seq<Variant>)
    ensures forall v :: v in Loaded(variants) <==> v in variants && Sellable(v)
  {
    if variants != [] {
      LoadedMembers(variants[..|variants| - 1]);
      assert forall v :: v in variants <==> v in variants[..|variants| - 1] || v == variants[|variants| - 1];
    }
  }

  predicate PricesOf(prices: seq<Price>, loaded: seq<Variant>) {
    && (forall v | v in loaded && v.price > 0 :: PriceOf(v.price, v.promotion) in prices)
    && (forall x | x in prices :: exists v :: v in loaded && v.price > 0 && x == PriceOf(v.price, v.promotion))
  }

  lemma {:induction false} VariantPricesMembers(loaded: seq<Variant>)
    ensures PricesOf(VariantPrices(loaded), loaded)
  {
    if loaded != [] {
      var n := |loaded| - 1;
      VariantPricesMembers(loaded[..n]);
      forall x | x in VariantPrices(loaded)
        ensures exists v :: v in loaded && v.price > 0 && x == PriceOf(v.price, v.promotion)
      {
        if x in VariantPrices(loaded[..n]) {
          var v :| v in loaded[..n] && v.price > 0 && x == PriceOf(v.price, v.promotion);
        } else {
          assert loaded[n] in loaded;
        }
      }
    }
  }

  lemma DisplayIsLowest(p: Product)
    requires Candidates(p) != []
    ensures DisplayPrice(p) in Candidates(p)
    ensures forall x | x in Candidates(p) :: DisplayPrice(p).effective <= x.effective
  {
    var all := Candidates(p);
    SortPermutes(all, Cheaper);
    SortSorts(all, Cheaper);
    forall x | x in all ensures DisplayPrice(p).effective <= x.effective {
      SortedHead(Sort(all, Cheaper), x, Cheaper);
    }
    assert Sort(all, Cheaper)[0] in Sort(all, Cheaper);
  }

  /** A price to show: the product's own, or that of a variant that is published, neither archived nor
      deleted, and priced without a promotion that is not positive. */
  ghost predicate Offers(p: Product, list: int, promotion: Option<int>) {
    list > 0 && ((p.base == Some(list) && p.promotion == promotion) || VariantOffers(p.variants, list, promotion))
  }

  predicate VariantOffers(variants: seq<Variant>, list: int, promotion: Option<int>) {
    exists v | v in variants ::
      && v.published && !v.archived && !v.deleted && v.price == list
      && v.promotion == promotion && (promotion.Some? ==> promotion.value > 0)
  }

  /** A promotion counts if it is positive and at most the list price. */
  function Displayed(list: int, promotion: Option<int>): Price {
    if promotion.Some? && 0 < promotion.value && promotion.value <= list then Price(list, promotion, promotion.value)
    else Price(list, None, list)
  }

  lemma OffersAre(p: Product, x: Price)
    ensures x in Candidates(p) <==>
      exists list, promotion :: Offers(p, list, promotion) && x == Displayed(list, promotion)
  {
    LoadedMembers(p.variants);
    VariantPricesMembers(Loaded(p.variants));
    if list, promotion :| Offers(p, list, promotion) && x == Displayed(list, promotion) {
      if !(p.base == Some(list) && p.promotion == promotion) {
        var v :| v in p.variants && v.published && !v.archived && !v.deleted && v.price == list &&
          v.promotion == promotion && (promotion.Some? ==> promotion.value > 0);
        assert v in Loaded(p.variants);
      }
    }
    if x in VariantPrices(Loaded(p.variants)) {
      var v :| v in Loaded(p.variants) && v.price > 0 && x == PriceOf(v.price, v.promotion);
      assert Offers(p, v.price, v.promotion);
    } else if x in Candidates(p) {
      assert Offers(p, p.base.value, p.promotion);
    }
  }

  /** The displayed price is an offer with the lowest amount to pay, and of those one with the lowest
      list price; without any offer it is nothing. */
  lemma DisplayIsLowestOffer(p: Product)
    ensures var d := DisplayPrice(p);
      if exists list, promotion :: Offers(p, list, promotion)
      then
        && (exists list, promotion :: Offers(p, list, promotion) && d == Displayed(list, promotion))
        && (forall list, promotion | Offers(p, list, promotion) ::
              d.effective < Displayed(list, promotion).effective ||
              (d.effective == Displayed(list, promotion).effective && d.list <= list))
      else d == Price(0, None, 0)
  {
    var all, sorted := Candidates(p), Sort(Candidates(p), Cheaper);
    SortPermutes(all, Cheaper);
    SortSorts(all, Cheaper);
    if sorted != [] {
      assert sorted[0] in sorted;
      OffersAre(p, sorted[0]);
    }
    forall list, promotion | Offers(p, list, promotion)
      ensures sorted != [] && Cheaper(sorted[0], Displayed(list, promotion))
    {
      OffersAre(p, Displayed(list, promotion));
      SortedHead(sorted, Displayed(list, promotion), Cheaper);
    }
  }

  // What the predicates mean.

  predicate Stands(comparator: Comparator, price: int, amount: int) {
    match comparator
    case Lt => price < amount
    case Lte => price <= amount
    case Gt => price > amount
  }

  /** On a row with a list price the effective-price predicate is two-valued and compares the
      effective price; without one it is never true, and never false either. */
  lemma EffectivePriceMeans(comparator: Comparator, amount: int, row: Row, variants: seq<Row>)
    requires comparator != Gt
    ensures var truth := Eval(EffectivePrice(comparator, amount), row, variants);
      if row.list.None? then truth == Unknown
      else
        var price := PriceOf(row.list.value, row.promotion).effective;
        truth == Truthful(row.list.value > 0 && Stands(comparator, price, amount))
  {
    var promoted := And(And(IsNotNull(PromotionalPrice), Compare(PromotionalPrice, Gt, Amount(0))),
      And(Compare(PromotionalPrice, Lte, Reference(ListPrice)), Compare(PromotionalPrice, comparator, Amount(amount))));
    var listed := And(Compare(ListPrice, Gt, Amount(0)), Compare(ListPrice, comparator, Amount(amount)));
    var unpromoted := Or(Or(IsNull(PromotionalPrice), Compare(PromotionalPrice, Lte, Amount(0))),
      Compare(PromotionalPrice, Gt, Reference(ListPrice)));
    assert Eval(EffectivePrice(comparator, amount), row, variants) ==
      Disjunction(Eval(promoted, row, variants),
        Conjunction(Eval(listed, row, variants), Eval(unpromoted, row, variants)));
    var p := row.promotion;
    var positive := And(IsNotNull(PromotionalPrice), Compare(PromotionalPrice, Gt, Amount(0)));
    var valid := And(Compare(PromotionalPrice, Lte, Reference(ListPrice)),
      Compare(PromotionalPrice, comparator, Amount(amount)));
    assert Eval(positive, row, variants) == Conjunction(Truthful(p.Some?), Comparison(p, Gt, Some(0)));
    assert Eval(valid, row, variants) ==
      Conjunction(Comparison(p, Lte, row.list), Comparison(p, comparator, Some(amount)));
    assert Eval(promoted, row, variants) == Conjunction(Eval(positive, row, variants), Eval(valid, row, variants));
    assert Eval(unpromoted, row, variants) ==
      Disjunction(Disjunction(Truthful(p.None?), Comparison(p, Lte, Some(0))), Comparison(p, Gt, row.list));
    assert Eval(listed, row, variants) ==
      Conjunction(Comparison(row.list, Gt, Some(0)), Comparison(row.list, comparator, Some(amount)));
  }

  lemma VariantMeans(comparator: Comparator, amount: int, v: Variant)
    requires comparator != Gt
    ensures Eval(PublicVariantEffectivePrice(comparator, amount), VariantRow(v), []) == True <==>
      IsShown(v) && v.price > 0 && Stands(comparator, PriceOf(v.price, v.promotion).effective, amount)
  {
    EffectivePriceMeans(comparator, amount, VariantRow(v), []);
  }

  /** Some candidate of the filter compares with the amount. */
  ghost predicate SomeCandidate(p: Product, comparator: Comparator, amount: int) {
    || (p.base.Some? && p.base.value > 0 && Stands(comparator, PriceOf(p.base.value, p.promotion).effective, amount))
    || SomeShown(p.variants, comparator, amount)
  }

  ghost predicate SomeShown(variants: seq<Variant>, comparator: Comparator, amount: int) {
    exists v ::
      v in variants && IsShown(v) && v.price > 0 && Stands(comparator, PriceOf(v.price, v.promotion).effective, amount)
  }

  lemma VariantsMean(comparator: Comparator, amount: int, variants: seq<Variant>)
    requires comparator != Gt
    ensures (exists r | r in VariantRows(variants) ::
      Eval(PublicVariantEffectivePrice(comparator, amount), r, []) == True) <==>
      SomeShown(variants, comparator, amount)
  {
    var rows := VariantRows(variants);
    forall i | 0 <= i < |variants|
      ensures Eval(PublicVariantEffectivePrice(comparator, amount), rows[i], []) == True <==>
        IsShown(variants[i]) && variants[i].price > 0 &&
          Stands(comparator, PriceOf(variants[i].price, variants[i].promotion).effective, amount)
    {
      VariantMeans(comparator, amount, variants[i]);
    }
    if r :| r in rows && Eval(PublicVariantEffectivePrice(comparator, amount), r, []) == True {
      var i :| 0 <= i < |rows| && rows[i] == r;
      assert variants[i] in variants;
    }
    if SomeShown(variants, comparator, amount) {
      var v :| v in variants && IsShown(v) && v.price > 0 &&
        Stands(comparator, PriceOf(v.price, v.promotion).effective, amount);
      var i :| 0 <= i < |variants| && variants[i] == v;
      assert rows[i] in rows;
    }
  }

  lemma MinimumMeans(p: Product, minimum: int)
    ensures Selects(MinimumClauses(minimum)[0], p) && Selects(MinimumClauses(minimum)[1], p) <==>
      p.base.Some? && !SomeCandidate(p, Lt, minimum)
  {
    EffectivePriceMeans(Lt, minimum, Row(p.base, p.promotion, true), VariantRows(p.variants));
    VariantsMean(Lt, minimum, p.variants);
  }

  lemma MaximumMeans(p: Product, maximum: int)
    ensures Selects(MaximumClause(maximum), p) <==> SomeCandidate(p, Lte, maximum)
  {
    var row, rows := Row(p.base, p.promotion, true), VariantRows(p.variants);
    EffectivePriceMeans(Lte, maximum, row, rows);
    VariantsMean(Lte, maximum, p.variants);
    assert Eval(SomeVariant(PublicVariantEffectivePrice(Lte, maximum)), row, rows) ==
      Truthful(SomeShown(p.variants, Lte, maximum));
  }

  lemma WhereMeans(p: Product, minimum: Option<int>, maximum: Option<int>)
    ensures Selects(PriceWhere(minimum, maximum), p) <==>
      && (minimum.Some? && minimum.value > 0 ==> p.base.Some? && !SomeCandidate(p, Lt, minimum.value))
      && (maximum.Some? ==> SomeCandidate(p, Lte, maximum.value))
  {
    var row, rows := Row(p.base, p.promotion, true), VariantRows(p.variants);
    var low := if minimum.Some? && minimum.value > 0 then MinimumClauses(minimum.value) else [];
    var high := if maximum.Some? then [MaximumClause(maximum.value)] else [];
    AllConcat(low, high, row, rows);
    if low != [] {
      MinimumMeans(p, minimum.value);
      AllTwo(low[0], low[1], row, rows);
    }
    if high != [] {
      MaximumMeans(p, maximum.value);
      AllConcat([], high, row, rows);
      assert [high[0]][..0] == [];
    }
  }

  lemma AllTwo(a: Where, b: Where, row: Row, rows: seq<Row>)
    ensures Eval(All([a, b]), row, rows) == True <==> Eval(a, row, rows) == True && Eval(b, row, rows) == True
  {
    AllConcat([a], [b], row, rows);
    assert [a] + [b] == [a, b];
    AllOne(a, row, rows);
    AllOne(b, row, rows);
  }

  lemma AllOne(a: Where, row: Row, rows: seq<Row>)
    ensures Eval(All([a]), row, rows) == True <==> Eval(a, row, rows) == True
  {
    assert [a][..0] == [];
    assert All([a]) == And(Always, a);
  }

  lemma {:induction false} AllConcat(a: seq<Where>, b: seq<Where>, row: Row, rows: seq<Row>)
    ensures Eval(All(a + b), row, rows) == True <==> Eval(All(a), row, rows) == True && Eval(All(b), row, rows) == True
  {
    if b == [] {
      assert a + b == a;
    } else {
      AllConcat(a, b[..|b| - 1], row, rows);
      assert (a + b)[..|a + b| - 1] == a + b[..|b| - 1];
    }
  }

  // The theorem.

  predicate InRange(price: int, minimum: Option<int>, maximum: Option<int>) {
    (minimum.Some? ==> minimum.value <= price) && (maximum.Some? ==> price <= maximum.value)
  }

  /** No variant that is shown but not sold is cheaper than the displayed price. */
  predicate NoneMisleads(p: Product) {
    forall v | v in p.variants && IsShown(v) && v.price > 0 && !Sellable(v) :: DisplayPrice(p).effective <= v.price
  }

  /** What the filter compares of a variant: its effective price, which is the list price if the
      variant is shown but not sold. */
  lemma VariantCandidate(p: Product, v: Variant)
    requires v in p.variants && IsShown(v) && v.price > 0
    ensures Sellable(v) ==> PriceOf(v.price, v.promotion) in Candidates(p)
    ensures !Sellable(v) ==> PriceOf(v.price, v.promotion).effective == v.price
  {
    LoadedMembers(p.variants);
    VariantPricesMembers(Loaded(p.variants));
  }

  lemma CandidateSource(p: Product, x: Price)
    requires x in Candidates(p)
    ensures x.effective > 0
    ensures (p.base.Some? && p.base.value > 0 && x == PriceOf(p.base.value, p.promotion)) ||
      exists v :: v in p.variants && IsShown(v) && v.price > 0 && x == PriceOf(v.price, v.promotion)
  {
    LoadedMembers(p.variants);
    VariantPricesMembers(Loaded(p.variants));
    if x in VariantPrices(Loaded(p.variants)) {
      var v :| v in Loaded(p.variants) && v.price > 0 && x == PriceOf(v.price, v.promotion);
      assert v in p.variants && Sellable(v);
    }
  }

  /** When nothing misleads, the filter's candidates compare like the displayed price. */
  lemma CandidateMeans(p: Product, comparator: Comparator, amount: int)
    requires NoneMisleads(p) && Candidates(p) != [] && comparator != Gt
    ensures SomeCandidate(p, comparator, amount) <==> Stands(comparator, DisplayPrice(p).effective, amount)
  {
    DisplayIsLowest(p);
    CandidateSource(p, DisplayPrice(p));
    if p.base.Some? && p.base.value > 0 { assert PriceOf(p.base.value, p.promotion) in Candidates(p); }
    if SomeShown(p.variants, comparator, amount) {
      var v :| v in p.variants && IsShown(v) && v.price > 0 &&
        Stands(comparator, PriceOf(v.price, v.promotion).effective, amount);
      VariantCandidate(p, v);
    }
  }

  /** The filter selects a product exactly when its displayed price is in the range, except that a
      positive minimum also hides every product without a base price. */
  lemma FilterMeansDisplayedPrice(p: Product, minimum: Option<int>, maximum: Option<int>)
    requires NoneMisleads(p) && Candidates(p) != []
    ensures Selects(PriceWhere(minimum, maximum), p) <==>
      InRange(DisplayPrice(p).effective, minimum, maximum) && (p.base.Some? || minimum.None? || minimum.value <= 0)
  {
    WhereMeans(p, minimum, maximum);
    DisplayIsLowest(p);
    CandidateSource(p, DisplayPrice(p));
    if minimum.Some? { CandidateMeans(p, Lt, minimum.value); }
    if maximum.Some? { CandidateMeans(p, Lte, maximum.value); }
  }

  /** Filter and display agree on the product for every range. */
  ghost predicate AgreeEverywhere(p: Product) {
    forall minimum, maximum ::
      Selects(PriceWhere(minimum, maximum), p) <==> InRange(DisplayPrice(p).effective, minimum, maximum)
  }

  lemma AgreeAt(p: Product, minimum: Option<int>, maximum: Option<int>)
    requires AgreeEverywhere(p)
    ensures Selects(PriceWhere(minimum, maximum), p) <==> InRange(DisplayPrice(p).effective, minimum, maximum)
  {
  }

  lemma UnpricedDisagrees(p: Product)
    requires Candidates(p) == []
    ensures !AgreeEverywhere(p)
  {
    if AgreeEverywhere(p) {
      AgreeAt(p, None, Some(0));
      WhereMeans(p, None, Some(0));
      assert false;
    }
  }

  lemma NoBaseDisagrees(p: Product)
    requires Candidates(p) != [] && p.base.None?
    ensures !AgreeEverywhere(p)
  {
    DisplayIsLowest(p);
    CandidateSource(p, DisplayPrice(p));
    if AgreeEverywhere(p) {
      AgreeAt(p, Some(1), None);
      WhereMeans(p, Some(1), None);
      assert false;
    }
  }

  lemma MisleadingDisagrees(p: Product, v: Variant)
    requires v in p.variants && IsShown(v) && v.price > 0 && !Sellable(v) && v.price < DisplayPrice(p).effective
    ensures !AgreeEverywhere(p)
  {
    VariantCandidate(p, v);
    if AgreeEverywhere(p) {
      AgreeAt(p, None, Some(v.price));
      WhereMeans(p, None, Some(v.price));
      assert SomeShown(p.variants, Lte, v.price);
      assert false;
    }
  }

  /** Filter and display agree on every range exactly for products with a base price and something to
      sell whose displayed price no shown but unsellable variant undercuts. */
  lemma AgreeExactly(p: Product)
    ensures AgreeEverywhere(p) <==> p.base.Some? && Candidates(p) != [] && NoneMisleads(p)
  {
    if Candidates(p) == [] {
      UnpricedDisagrees(p);
    } else if p.base.None? {
      NoBaseDisagrees(p);
    } else if !NoneMisleads(p) {
      var v :| v in p.variants && IsShown(v) && v.price > 0 && !Sellable(v) && v.price < DisplayPrice(p).effective;
      MisleadingDisagrees(p, v);
    } else {
      forall minimum, maximum
        ensures Selects(PriceWhere(minimum, maximum), p) <==> InRange(DisplayPrice(p).effective, minimum, maximum)
      {
        FilterMeansDisplayedPrice(p, minimum, maximum);
      }
    }
  }

  /** The public listing asks for a sellable variant, which is a price to display. */
  lemma SellableVariantIsPriced(p: Product, v: Variant)
    requires v in p.variants && Sellable(v)
    ensures Candidates(p) != []
  {
    LoadedMembers(p.variants);
    VariantPricesMembers(Loaded(p.variants));
    assert PriceOf(v.price, v.promotion) in VariantPrices(Loaded(p.variants));
  }

  /** A published variant with a zero promotion is not sold, but the filter still counts its list
      price. */
  lemma UnsellableVariantMisleads()
    ensures var p := Product(Some(500), None, [Variant(true, false, false, 100, Some(0))]);
      && !NoneMisleads(p) && DisplayPrice(p).effective == 500
      && Selects(PriceWhere(None, Some(200)), p) && !Selects(PriceWhere(Some(300), None), p)
  {
    var v := Variant(true, false, false, 100, Some(0));
    var p := Product(Some(500), None, [v]);
    assert [v][..0] == [] && Loaded([v][..0]) == [] && Loaded([v]) == [];
    assert Candidates(p) == [PriceOf(500, None)];
    DisplayIsLowest(p);
    WhereMeans(p, None, Some(200));
    WhereMeans(p, Some(300), None);
    assert v in p.variants && IsShown(v);
    assert SomeShown(p.variants, Lte, 200) && SomeShown(p.variants, Lt, 300);
  }
}
