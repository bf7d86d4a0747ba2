/** What is public stays sellable, whatever requests interleave, and what that gives the price filter. */
module PublicationProof {
  import opened Wrappers
  import opened Publication
  import F = PriceFilter

  // The invariant.

  predicate VariantOk(s: Store, v: Variant) {
    && v.product < |s.products| && VariantPromotionOk(v.price, v.promotion) && v.status != Archived
    && (v.status == Published ==> !v.archived && Positive(v.price, v.promotion))
    && (v.archived ==> v.status == Draft)
  }

  predicate HasSellable(variants: seq<Variant>, p: nat) {
    exists v: nat :: v < |variants| && variants[v].product == p && Sellable(variants[v])
  }

  predicate ProductOk(s: Store, p: nat)
    requires p < |s.products|
  {
    var row := s.products[p];
    && ProductPromotionOk(row.base, row.promotion)
    && (row.status == Published ==> BasePositive(row.base, row.promotion) && HasSellable(s.variants, p))
  }

  /** The version fence: a request whose version is still the row's has read the row as it is. */
  predicate RequestOk(s: Store, r: Request) {
    match r
    case UpdateVariant(v, i, read) =>
      && v < |s.variants| && i.version == read.version && Mutable(i.status) && !read.archived
      && VariantPromotionOk(NewPrice(i, read), NewPromotion(i, read)) && FencedVariant(s.variants[v], read)
    case ArchiveVariant(v, archive, read) =>
      v < |s.variants| && read.archived != archive && FencedVariant(s.variants[v], read)
    case UpdateProduct(p, i, read) =>
      && p < |s.products| && i.version == read.version && Mutable(i.status) && read.status != Archived
      && ProductPromotionOk(NewBase(i, read), NewProductPromotion(i, read)) && FencedProduct(s.products[p], read)
      && (i.mediaConfirmed ==> NewProductStatus(i, read) == Published && read.needsMediaReview)
    case ArchiveProduct(p, archive, read) => p < |s.products| && FencedProduct(s.products[p], read)
  }

  predicate FencedVariant(row: Variant, read: Variant) {
    read.version <= row.version && (read.version == row.version ==> row == read)
  }

  predicate FencedProduct(row: Product, read: Product) {
    read.version <= row.version && (read.version == row.version ==> row == read)
  }

  predicate VariantsOk(s: Store) { forall v | v in s.variants :: VariantOk(s, v) }

  predicate ProductsOk(s: Store) { forall p: nat | p < |s.products| :: ProductOk(s, p) }

  predicate RequestsOk(s: Store) { forall r | r in s.requests :: RequestOk(s, r) }

  predicate Inv(s: Store) { VariantsOk(s) && ProductsOk(s) && RequestsOk(s) }

  // How rows change.

  /** Rows are only added or replaced by rows of a later version. */
  predicate Later(s: Store, t: Store) {
    && |s.variants| <= |t.variants| && |s.products| <= |t.products| && s.requests == t.requests
    && (forall v | 0 <= v < |s.variants| ::
      t.variants[v] == s.variants[v] || t.variants[v].version > s.variants[v].version)
    && (forall p | 0 <= p < |s.products| ::
      t.products[p] == s.products[p] || t.products[p].version > s.products[p].version)
  }

  lemma LaterRequests(s: Store, t: Store)
    requires RequestsOk(s) && Later(s, t)
    ensures RequestsOk(t)
  {
    forall r | r in t.requests ensures RequestOk(t, r) {
      assert RequestOk(s, r);
    }
  }

  lemma OpenInv(s: Store, r: Request)
    requires Inv(s) && RequestOk(s, r)
    ensures Inv(s.(requests := s.requests + [r]))
  {
    var t := s.(requests := s.requests + [r]);
    assert forall p: nat | p < |t.products| :: ProductOk(s, p) && ProductOk(t, p);
    assert forall x | x in t.requests :: RequestOk(s, x);
  }

  // A change of one variant.

  lemma StillSellable(variants: seq<Variant>, v: nat, row: Variant, p: nat)
    requires v < |variants| && HasSellable(variants, p)
    requires row.product == variants[v].product
    requires Sellable(variants[v]) ==> Sellable(row) || variants[v].product != p || Retains(variants, p, v)
    ensures HasSellable(variants[v := row], p)
  {
    var w: nat :| w < |variants| && variants[w].product == p && Sellable(variants[w]);
    if w == v && !Sellable(row) {
      var x: nat :| x < |variants| && x != v && variants[x].product == p && Sellable(variants[x]);
      assert variants[v := row][x] == variants[x];
    } else {
      assert variants[v := row][w] == if w == v then row else variants[w];
    }
  }

  lemma VariantChangeInv(s: Store, v: nat, row: Variant)
    requires Inv(s) && v < |s.variants| && VariantOk(s, row)
    requires row.product == s.variants[v].product && row.version > s.variants[v].version
    requires Sellable(s.variants[v]) && !Sellable(row) && s.products[row.product].status == Published ==>
      Retains(s.variants, row.product, v)
    ensures Inv(s.(variants := s.variants[v := row]))
  {
    var t := s.(variants := s.variants[v := row]);
    LaterRequests(s, t);
    forall x | x in t.variants ensures VariantOk(t, x) {
      assert VariantOk(s, x);
    }
    forall p: nat | p < |t.products| ensures ProductOk(t, p) {
      assert ProductOk(s, p);
      if t.products[p].status == Published { StillSellable(s.variants, v, row, p); }
    }
  }

  lemma VariantUpdateInv(s: Store, v: nat, i: VariantInput, read: Variant, f: Facts)
    requires Inv(s) && RequestOk(s, UpdateVariant(v, i, read))
    ensures Inv(Written(s, CommitVariantUpdate(s, v, i, read, f)))
  {
    if CommitVariantUpdate(s, v, i, read, f).Ok? {
      assert s.variants[v] in s.variants && s.variants[v] == read && VariantOk(s, read);
      VariantChangeInv(s, v, UpdatedVariant(i, read));
    }
  }

  lemma VariantArchiveInv(s: Store, v: nat, archive: bool, read: Variant)
    requires Inv(s) && RequestOk(s, ArchiveVariant(v, archive, read))
    ensures Inv(Written(s, CommitVariantArchive(s, v, archive, read)))
  {
    if CommitVariantArchive(s, v, archive, read).Ok? {
      assert s.variants[v] in s.variants && s.variants[v] == read && VariantOk(s, read);
      VariantChangeInv(s, v, read.(archived := archive, status := Draft, version := read.version + 1));
    }
  }

  // A change of one product.

  lemma ProductChangeInv(s: Store, p: nat, row: Product)
    requires Inv(s) && p < |s.products| && row.version > s.products[p].version
    requires ProductPromotionOk(row.base, row.promotion)
    requires row.status == Published ==> BasePositive(row.base, row.promotion) && HasSellable(s.variants, p)
    ensures Inv(s.(products := s.products[p := row]))
  {
    var t := s.(products := s.products[p := row]);
    LaterRequests(s, t);
    forall q: nat | q < |t.products| ensures ProductOk(t, q) {
      assert ProductOk(s, q);
    }
    forall x | x in t.variants ensures VariantOk(t, x) {
      assert VariantOk(s, x);
    }
  }

  /** Publishing needs a public variant, and a public variant is sellable. */
  lemma PublicIsSellable(s: Store, p: nat)
    requires VariantsOk(s) && PublicOf(s.variants, p) != []
    ensures HasSellable(s.variants, p)
  {
    var v := PublicOf(s.variants, p)[0];
    assert v in PublicOf(s.variants, p) && s.variants[v] in s.variants && VariantOk(s, s.variants[v]);
    assert s.variants[v].product == p && Sellable(s.variants[v]);
  }

  lemma ProductUpdateInv(s: Store, p: nat, i: ProductInput, read: Product, f: Facts)
    requires Inv(s) && RequestOk(s, UpdateProduct(p, i, read))
    ensures Inv(Written(s, CommitProductUpdate(s, p, i, read, f)))
  {
    if CommitProductUpdate(s, p, i, read, f).Ok? {
      assert s.products[p] == read && ProductOk(s, p);
      var row := UpdatedProduct(i, read, read);
      if row.status == Published && read.status != Published {
        ReadyProduct(read, NewBase(i, read), NewProductPromotion(i, read), i.mediaConfirmed, s.variants,
          PublicOf(s.variants, p), f);
        PublicIsSellable(s, p);
      }
      ProductChangeInv(s, p, row);
    }
  }

  /** What an empty list of blockers guarantees of prices and variants. */
  lemma ReadyProduct(p: Product, base: Option<int>, promotion: Option<int>, confirmed: bool, variants: seq<Variant>,
    ids: seq<nat>, f: Facts)
    requires Rows(variants, ids)
    requires ProductBlockers(p, base, promotion, confirmed, variants, ids, f) == []
    ensures ids != [] && BasePositive(base, promotion)
  {
  }

  predicate RowReady(variants: seq<Variant>, ids: seq<nat>, k: nat, f: Facts)
    requires k < |ids| && Rows(variants, ids)
  {
    && variants[ids[k]].sku != 0 && Positive(variants[ids[k]].price, variants[ids[k]].promotion) &&
      AvailableOf(f, ids[k]) > 0
    && forall j | 0 <= j < k :: variants[ids[j]].sku != variants[ids[k]].sku
  }

  lemma SkusMeaning(variants: seq<Variant>, ids: seq<nat>, sku: nat)
    requires Rows(variants, ids) && sku != 0
    ensures sku in SkusOf(variants, ids) <==> exists j :: 0 <= j < |ids| && variants[ids[j]].sku == sku
  {
    if j :| 0 <= j < |ids| && variants[ids[j]].sku == sku { assert ids[j] in ids; }
    if sku in SkusOf(variants, ids) {
      var v :| v in ids && v < |variants| && variants[v].sku != 0 && variants[v].sku == sku;
      var j :| 0 <= j < |ids| && ids[j] == v;
    }
  }

  predicate AllRowsReady(variants: seq<Variant>, ids: seq<nat>, f: Facts)
    requires Rows(variants, ids)
  {
    forall k: nat | k < |ids| :: RowReady(variants, ids, k, f)
  }

  lemma LastReady(variants: seq<Variant>, ids: seq<nat>, n: nat, f: Facts)
    requires Rows(variants, ids) && n < |ids|
    ensures RowBlocker(variants[ids[n]], ids[n], SkusOf(variants, ids[..n]), f) == [] <==>
      RowReady(variants, ids, n, f)
  {
    if variants[ids[n]].sku != 0 { SkusMeaning(variants, ids[..n], variants[ids[n]].sku); }
  }

  lemma FrontReady(variants: seq<Variant>, ids: seq<nat>, f: Facts)
    requires Rows(variants, ids) && ids != []
    ensures var n := |ids| - 1;
      AllRowsReady(variants, ids, f) <==> AllRowsReady(variants, ids[..n], f) && RowReady(variants, ids, n, f)
  {
    var n := |ids| - 1;
    forall k: nat | k < n ensures RowReady(variants, ids[..n], k, f) == RowReady(variants, ids, k, f) {
      assert forall j | 0 <= j <= k :: ids[..n][j] == ids[j];
    }
  }

  lemma {:induction false} RowsReady(variants: seq<Variant>, ids: seq<nat>, f: Facts)
    requires Rows(variants, ids)
    ensures RowBlockers(variants, ids, f) == [] <==> AllRowsReady(variants, ids, f)
  {
    if ids != [] {
      var n := |ids| - 1;
      RowsReady(variants, ids[..n], f);
      LastReady(variants, ids, n, f);
      FrontReady(variants, ids, f);
    }
  }

  lemma {:induction false} TotalPositive(variants: seq<Variant>, ids: seq<nat>, f: Facts)
    requires Rows(variants, ids) && AllRowsReady(variants, ids, f)
    ensures TotalAvailable(ids, f) >= |ids|
  {
    if ids != [] {
      FrontReady(variants, ids, f);
      TotalPositive(variants, ids[..|ids| - 1], f);
    }
  }

  lemma ReadyPriced(base: Option<int>, variants: seq<Variant>, ids: seq<nat>, f: Facts)
    requires Rows(variants, ids) && AllRowsReady(variants, ids, f) && ids != []
    ensures Priced(base, variants, ids)
  {
    assert RowReady(variants, ids, 0, f) && variants[ids[0]].price > 0;
  }

  /** Every public variant has its own SKU, positive prices and stock, and there is one; the product's
      own prices are positive, an image is approved and none is unresolved, a flagged review is
      confirmed, and delivery is possible. */
  predicate ProductReady(p: Product, base: Option<int>, promotion: Option<int>, confirmed: bool,
    variants: seq<Variant>, ids: seq<nat>, f: Facts)
    requires Rows(variants, ids)
  {
    && ids != [] && AllRowsReady(variants, ids, f) && BasePositive(base, promotion)
    && (f.productImages > 0 || exists k | 0 <= k < |ids| :: ImagesOf(f, ids[k]) > 0)
    && f.unresolvedImages == 0 && (p.needsMediaReview ==> confirmed) && !f.deliveryMissing
  }

  /** A product can be published exactly when it is ready: the review flags for pricing and stock
      never block on their own. */
  lemma ReadyExactly(p: Product, base: Option<int>, promotion: Option<int>, confirmed: bool, variants: seq<Variant>,
    ids: seq<nat>, f: Facts)
    requires Rows(variants, ids)
    ensures ProductBlockers(p, base, promotion, confirmed, variants, ids, f) == [] <==>
      ProductReady(p, base, promotion, confirmed, variants, ids, f)
  {
    RowsReady(variants, ids, f);
    if AllRowsReady(variants, ids, f) {
      TotalPositive(variants, ids, f);
      if ids != [] { ReadyPriced(base, variants, ids, f); }
    }
  }

  /** A SKU of its own, positive prices, stock and an approved image, with no image unresolved, no
      media review of the product awaited, and delivery possible. */
  predicate VariantReady(p: Product, v: nat, sku: nat, price: int, promotion: Option<int>, f: Facts) {
    && sku != 0 && !f.skuTaken && Positive(price, promotion) && AvailableOf(f, v) > 0
    && f.productImages + ImagesOf(f, v) > 0 && f.unresolvedImages == 0 && !p.needsMediaReview && !f.deliveryMissing
  }

  /** A draft variant can be published exactly when it is ready: here too the flags for pricing and
      stock never block on their own. */
  lemma VariantReadyExactly(p: Product, v: nat, sku: nat, price: int, promotion: Option<int>, f: Facts)
    ensures VariantBlockers(p, v, sku, price, promotion, f) == [] <==> VariantReady(p, v, sku, price, promotion, f)
  {
  }

  lemma ProductArchiveInv(s: Store, p: nat, archive: bool, read: Product)
    requires Inv(s) && RequestOk(s, ArchiveProduct(p, archive, read))
    ensures Inv(Written(s, CommitProductArchive(s, p, archive, read)))
  {
    if CommitProductArchive(s, p, archive, read).Ok? {
      assert ProductOk(s, p);
      ProductChangeInv(s, p, read.(status := if archive then Archived else Draft, version := read.version + 1));
    }
  }

  // Every step.

  lemma AddVariantInv(s: Store, row: Variant)
    requires Inv(s) && VariantOk(s, row)
    ensures Inv(s.(variants := s.variants + [row]))
  {
    var t := s.(variants := s.variants + [row]);
    LaterRequests(s, t);
    forall p: nat | p < |t.products| ensures ProductOk(t, p) {
      assert ProductOk(s, p);
      if t.products[p].status == Published {
        var v: nat :| v < |s.variants| && s.variants[v].product == p && Sellable(s.variants[v]);
        assert t.variants[v] == s.variants[v];
      }
    }
    assert forall x | x in t.variants :: VariantOk(s, x);
  }

  lemma AddProductInv(s: Store, row: Product)
    requires Inv(s) && ProductPromotionOk(row.base, row.promotion) && row.status == Draft
    ensures Inv(s.(products := s.products + [row]))
  {
    var t := s.(products := s.products + [row]);
    LaterRequests(s, t);
    forall p: nat | p < |t.products| ensures ProductOk(t, p) {
      if p < |s.products| { assert ProductOk(s, p); }
    }
    assert forall x | x in t.variants :: VariantOk(s, x);
  }

  lemma NextInv(s: Store, step: Step)
    requires Inv(s)
    ensures Inv(Next(s, step))
  {
    match step
    case CreateProductStep(base, promotion, needsPricing, needsStock, needsMedia) =>
      if ProductPromotionOk(base, promotion) {
        AddProductInv(s, Product(Draft, base, promotion, needsPricing, needsStock, needsMedia, 1));
      }
    case CreateVariantStep(product, sku, price, promotion) =>
      if CreateVariant(s, product, sku, price, promotion).Ok? {
        AddVariantInv(s, Variant(product, Draft, false, sku, price, promotion, 1));
      }
    case OpenVariantUpdateStep(v, i, f) =>
      if Mutable(i.status) && OpenVariantUpdate(s, v, i, f).Ok? { OpenInv(s, OpenVariantUpdate(s, v, i, f).value); }
    case OpenVariantArchiveStep(v, version, archive) =>
      if OpenVariantArchive(s, v, version, archive).Ok? {
        OpenInv(s, OpenVariantArchive(s, v, version, archive).value);
      }
    case OpenProductUpdateStep(p, i, f) =>
      if Mutable(i.status) && OpenProductUpdate(s, p, i, f).Ok? { OpenInv(s, OpenProductUpdate(s, p, i, f).value); }
    case OpenProductArchiveStep(p, version, archive) =>
      if OpenProductArchive(s, p, version, archive).Ok? {
        OpenInv(s, OpenProductArchive(s, p, version, archive).value);
      }
    case CommitStep(k, f) => if k < |s.requests| { CommitInv(s, s.requests[k], f); }
  }

  lemma CommitInv(s: Store, r: Request, f: Facts)
    requires Inv(s) && r in s.requests
    ensures Inv(Written(s, Commit(s, r, f)))
  {
    assert RequestOk(s, r);
    match r
    case UpdateVariant(v, i, read) => VariantUpdateInv(s, v, i, read, f);
    case ArchiveVariant(v, archive, read) => VariantArchiveInv(s, v, archive, read);
    case UpdateProduct(p, i, read) => ProductUpdateInv(s, p, i, read, f);
    case ArchiveProduct(p, archive, read) => ProductArchiveInv(s, p, archive, read);
  }

  ghost predicate Reachable(s: Store) { exists steps: seq<Step> :: s == Run(Empty, steps) }

  lemma {:induction false} RunInv(s: Store, steps: seq<Step>)
    requires Inv(s)
    ensures Inv(Run(s, steps))
    decreases |steps|
  {
    if steps != [] {
      NextInv(s, steps[0]);
      RunInv(Next(s, steps[0]), steps[1..]);
    }
  }

  lemma ReachableInv(s: Store)
    requires Reachable(s)
    ensures Inv(s)
  {
    var steps: seq<Step> :| s == Run(Empty, steps);
    RunInv(Empty, steps);
  }

  // The theorems.

  /** Every published variant is unarchived, with a positive price and no promotion that is not
      positive or above it. */
  lemma PublishedVariantsSellable(s: Store, v: nat)
    requires Reachable(s) && v < |s.variants| && s.variants[v].status == Published
    ensures Sellable(s.variants[v]) && VariantPromotionOk(s.variants[v].price, s.variants[v].promotion)
  {
    ReachableInv(s);
    assert s.variants[v] in s.variants && VariantOk(s, s.variants[v]);
  }

  /** Every published product has a variant to sell, and its own prices are positive. */
  lemma PublishedProductsSell(s: Store, p: nat) returns (v: nat)
    requires Reachable(s) && p < |s.products| && s.products[p].status == Published
    ensures v < |s.variants| && s.variants[v].product == p && Sellable(s.variants[v])
    ensures BasePositive(s.products[p].base, s.products[p].promotion) &&
      ProductPromotionOk(s.products[p].base, s.products[p].promotion)
  {
    ReachableInv(s);
    assert ProductOk(s, p);
    v :| v < |s.variants| && s.variants[v].product == p && Sellable(s.variants[v]);
  }

  /** The request takes a published variant out of sale, by archiving it or by another status. */
  predicate Withdraws(r: Request) {
    || (r.ArchiveVariant? && r.archive && r.variantRead.status == Published)
    || (r.UpdateVariant? && r.variantRead.status == Published &&
        NewStatus(r.variantInput, r.variantRead) != Published)
  }

  /** Taking a published variant out of a published product, either way, is refused exactly when it is
      the last one the product could sell. */
  lemma RetentionExactly(s: Store, r: Request, f: Facts)
    requires Reachable(s) && r in s.requests && Withdraws(r) && r.variant < |s.variants|
    requires s.variants[r.variant].version == r.variantRead.version
    ensures r.variantRead.product < |s.products|
    ensures Commit(s, r, f).Err? <==>
      s.products[r.variantRead.product].status == Published &&
      forall w: nat | w < |s.variants| && s.variants[w].product == r.variantRead.product && Sellable(s.variants[w]) ::
        w == r.variant
  {
    ReachableInv(s);
    assert RequestOk(s, r) && s.variants[r.variant] in s.variants && VariantOk(s, s.variants[r.variant]);
  }

  predicate SameRow(r: Request, r': Request) {
    || ((r.UpdateVariant? || r.ArchiveVariant?) && (r'.UpdateVariant? || r'.ArchiveVariant?) && r.variant == r'.variant
        && r.variantRead.version == r'.variantRead.version)
    || ((r.UpdateProduct? || r.ArchiveProduct?) && (r'.UpdateProduct? || r'.ArchiveProduct?) && r.product == r'.product
        && r.productRead.version == r'.productRead.version)
  }

  /** Of the requests that read one version of a row at most one is ever written: once one is, all
      the others are refused for ever, itself included. */
  lemma NoLostUpdate(s: Store, r: Request, f: Facts, steps: seq<Step>, r': Request, f': Facts)
    requires Reachable(s) && r in s.requests && Commit(s, r, f).Ok?
    requires SameRow(r, r') && r' in Run(Commit(s, r, f).value, steps).requests
    ensures Commit(Run(Commit(s, r, f).value, steps), r', f') == Err(VersionConflict)
  {
    ReachableInv(s);
    CommitInv(s, r, f);
    assert RequestOk(s, r);
    var t := Commit(s, r, f).value;
    RunLater(t, steps);
    RunInv(t, steps);
    assert RequestOk(Run(t, steps), r');
  }

  /** Later, but requests may have been added. */
  predicate Onward(s: Store, t: Store) { Later(s, t.(requests := s.requests)) }

  lemma NextLater(s: Store, step: Step)
    requires Inv(s)
    ensures Onward(s, Next(s, step))
  {
    if step.CommitStep? && step.request < |s.requests| {
      var r := s.requests[step.request];
      assert r in s.requests && RequestOk(s, r);
    }
  }

  lemma {:induction false} RunLater(s: Store, steps: seq<Step>)
    requires Inv(s)
    ensures Onward(s, Run(s, steps))
    decreases |steps|
  {
    if steps != [] {
      NextLater(s, steps[0]);
      NextInv(s, steps[0]);
      RunLater(Next(s, steps[0]), steps[1..]);
    }
  }

  // The catalogue's price filter.

  function Listed(v: Variant): F.Variant { F.Variant(v.status == Published, v.archived, false, v.price, v.promotion) }

  function ListedOf(variants: seq<Variant>, p: nat): seq<F.Variant> {
    if variants == [] then []
    else
      var n := |variants| - 1;
      ListedOf(variants[..n], p) + if variants[n].product == p then [Listed(variants[n])] else []
  }

  function AsListed(s: Store, p: nat): F.Product
    requires p < |s.products|
  {
    F.Product(s.products[p].base, s.products[p].promotion, ListedOf(s.variants, p))
  }

  lemma {:induction false} ListedMembers(variants: seq<Variant>, p: nat)
    ensures forall x | x in ListedOf(variants, p) ::
      exists v: nat :: v < |variants| && variants[v].product == p && x == Listed(variants[v])
    ensures forall v: nat | v < |variants| && variants[v].product == p :: Listed(variants[v]) in ListedOf(variants, p)
  {
    if variants != [] {
      var n := |variants| - 1;
      ListedMembers(variants[..n], p);
      forall x | x in ListedOf(variants, p)
        ensures exists v: nat :: v < |variants| && variants[v].product == p && x == Listed(variants[v])
      {
        if x in ListedOf(variants[..n], p) {
          var v: nat :| v < n && variants[..n][v].product == p && x == Listed(variants[..n][v]);
          assert variants[v] == variants[..n][v];
        }
      }
      forall v: nat | v < |variants| && variants[v].product == p ensures Listed(variants[v]) in ListedOf(variants, p) {
        if v < n { assert variants[..n][v] == variants[v]; }
      }
    }
  }

  /** For a published product of any reachable state the filter selects it exactly when its displayed
      price is in the range, unless it has no base price and the minimum is positive. */
  lemma PublishedProductsFiltered(s: Store, p: nat, minimum: Option<int>, maximum: Option<int>)
    requires Reachable(s) && p < |s.products| && s.products[p].status == Published
    ensures F.Selects(F.PriceWhere(minimum, maximum), AsListed(s, p)) <==>
      F.InRange(F.DisplayPrice(AsListed(s, p)).effective, minimum, maximum) &&
      (s.products[p].base.Some? || minimum.None? || minimum.value <= 0)
  {
    var v := PublishedProductsSell(s, p);
    ListedMembers(s.variants, p);
    F.SellableVariantIsPriced(AsListed(s, p), Listed(s.variants[v]));
    forall x | x in ListedOf(s.variants, p) && F.IsShown(x) ensures F.Sellable(x) {
      var w: nat :| w < |s.variants| && s.variants[w].product == p && x == Listed(s.variants[w]);
      PublishedVariantsSellable(s, w);
    }
    F.FilterMeansDisplayedPrice(AsListed(s, p), minimum, maximum);
  }
}
