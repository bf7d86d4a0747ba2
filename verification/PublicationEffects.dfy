/** What an admin request on the catalogue writes and what each answer means, on the columns of the
    rows, in every reachable state. */
module PublicationEffects {
  import opened Wrappers
  import opened Publication
  import opened PublicationProof

  /** The value of an input field, or what the row has. */
  function Given<T>(field: Option<T>, present: T): T { if field.Some? then field.value else present }

  /** A variant that counts for its product's publication. */
  predicate OnSale(s: Store, v: nat, p: nat) {
    v < |s.variants| && s.variants[v].product == p && s.variants[v].status == Published && !s.variants[v].archived
  }

  predicate NotPositive(price: int, promotion: Option<int>) {
    price <= 0 || (promotion.Some? && promotion.value <= 0)
  }

  predicate OwnNotPositive(base: Option<int>, promotion: Option<int>) {
    (base.Some? && base.value <= 0) || (promotion.Some? && promotion.value <= 0)
  }

  predicate InStock(f: Facts, v: nat) { v in f.available && f.available[v] > 0 }

  predicate Pictured(f: Facts, v: nat) { v in f.variantImages && f.variantImages[v] > 0 }

  ghost predicate HasPicture(s: Store, p: nat, f: Facts) {
    f.productImages > 0 || exists v: nat | OnSale(s, v, p) :: Pictured(f, v)
  }

  /** What the last variant adds to the stock on sale. */
  function StockOfLast(variants: seq<Variant>, p: nat, f: Facts): int
    requires variants != []
  {
    var n := |variants| - 1;
    if variants[n].product == p && variants[n].status == Published && !variants[n].archived && n in f.available
    then f.available[n] else 0
  }

  /** The stock of the variants that are on sale for the product. */
  function StockOf(variants: seq<Variant>, p: nat, f: Facts): int {
    if variants == [] then 0 else StockOf(variants[..|variants| - 1], p, f) + StockOfLast(variants, p, f)
  }

  // What blocks a publication.

  /** When each blocker stands against publishing a product that is not published: of its own, or
      because of a variant on sale. */
  ghost predicate Blocks(s: Store, p: nat, row: Product, base: Option<int>, promotion: Option<int>, confirmed: bool,
    f: Facts, b: Blocker) {
    OwnBlocks(s, p, row, base, promotion, confirmed, f, b) || SellerBlocks(s, p, f, b)
  }

  ghost predicate OwnBlocks(s: Store, p: nat, row: Product, base: Option<int>, promotion: Option<int>, confirmed: bool,
    f: Facts, b: Blocker) {
    match b
    case PricingReviewRequired =>
      row.requiresPricing && !(base.Some? && base.value > 0) &&
        forall v: nat | OnSale(s, v, p) :: s.variants[v].price <= 0
    case StockReviewRequired => row.requiresStock && StockOf(s.variants, p, f) <= 0
    case MediaReviewRequired => row.needsMediaReview && !HasPicture(s, p, f)
    case MediaReviewPending => f.unresolvedImages > 0
    case MediaReviewConfirmationRequired => row.needsMediaReview && !confirmed
    case SellableVariantMissing => forall v: nat :: !OnSale(s, v, p)
    case NonPositivePrice => OwnNotPositive(base, promotion)
    case ApprovedImageMissing => !HasPicture(s, p, f)
    case DeliveryMethodMissing => f.deliveryMissing
    case _ => false
  }

  ghost predicate SellerBlocks(s: Store, p: nat, f: Facts, b: Blocker) {
    match b
    case SkuInvalid => exists v: nat | OnSale(s, v, p) :: s.variants[v].sku == 0
    case SkuDuplicate =>
      exists v: nat, w: nat | OnSale(s, v, p) && OnSale(s, w, p) && v != w ::
        s.variants[v].sku == s.variants[w].sku != 0
    case NonPositivePrice =>
      exists v: nat | OnSale(s, v, p) :: NotPositive(s.variants[v].price, s.variants[v].promotion)
    case AvailableStockMissing => exists v: nat | OnSale(s, v, p) :: !InStock(f, v)
    case _ => false
  }

  /** When each blocker stands against a change of a published product. */
  predicate MediaBlocks(row: Product, confirmed: bool, f: Facts, b: Blocker) {
    match b
    case MediaReviewPending => f.unresolvedImages > 0
    case ApprovedImageMissing => row.needsMediaReview && f.publicImages == 0
    case MediaReviewConfirmationRequired => row.needsMediaReview && !confirmed
    case _ => false
  }

  /** When each blocker stands against publishing a variant that is not published. */
  predicate VariantBlocks(product: Product, v: nat, sku: nat, price: int, promotion: Option<int>, f: Facts,
    b: Blocker) {
    match b
    case PricingReviewRequired => product.requiresPricing && price <= 0
    case StockReviewRequired => product.requiresStock && !InStock(f, v)
    case MediaReviewRequired => product.needsMediaReview && f.productImages == 0 && !Pictured(f, v)
    case MediaReviewPending => f.unresolvedImages > 0
    case MediaReviewConfirmationRequired => product.needsMediaReview
    case SkuInvalid => sku == 0
    case SkuDuplicate => f.skuTaken
    case NonPositivePrice => NotPositive(price, promotion)
    case AvailableStockMissing => !InStock(f, v)
    case ApprovedImageMissing => f.productImages == 0 && !Pictured(f, v)
    case DeliveryMethodMissing => f.deliveryMissing
    case SellableVariantMissing => false
  }

  /** When each blocker stands against a change of a published variant. */
  predicate PriceBlocks(sku: nat, price: int, promotion: Option<int>, b: Blocker) {
    (b == SkuInvalid && sku == 0) || (b == NonPositivePrice && NotPositive(price, promotion))
  }

  lemma {:induction false} PublicAscends(variants: seq<Variant>, p: nat)
    ensures forall j, k | 0 <= j < k < |PublicOf(variants, p)| :: PublicOf(variants, p)[j] < PublicOf(variants, p)[k]
  {
    if variants != [] { PublicAscends(variants[..|variants| - 1], p); }
  }

  lemma TotalAppend(ids: seq<nat>, v: nat, sold: bool, f: Facts)
    ensures TotalAvailable(ids + if sold then [v] else [], f) ==
      TotalAvailable(ids, f) + if sold then AvailableOf(f, v) else 0
  {
    if sold {
      assert (ids + [v])[..|ids|] == ids;
    } else {
      assert ids + [] == ids;
    }
  }

  lemma LastStock(variants: seq<Variant>, p: nat, f: Facts)
    requires variants != []
    ensures TotalAvailable(PublicOf(variants, p), f) ==
      TotalAvailable(PublicOf(variants[..|variants| - 1], p), f) + StockOfLast(variants, p, f)
  {
    var n := |variants| - 1;
    TotalAppend(PublicOf(variants[..n], p), n, variants[n].product == p && Public(variants[n]), f);
  }

  lemma {:induction false} StockIs(variants: seq<Variant>, p: nat, f: Facts)
    ensures TotalAvailable(PublicOf(variants, p), f) == StockOf(variants, p, f)
  {
    if variants != [] {
      StockIs(variants[..|variants| - 1], p, f);
      LastStock(variants, p, f);
    }
  }

  /** What the public variants of a list add to the blockers. */
  predicate RowsBlock(variants: seq<Variant>, ids: seq<nat>, f: Facts, b: Blocker)
    requires Rows(variants, ids)
  {
    match b
    case SkuInvalid => exists k | 0 <= k < |ids| :: variants[ids[k]].sku == 0
    case SkuDuplicate => exists j, k | 0 <= j < k < |ids| :: variants[ids[j]].sku == variants[ids[k]].sku != 0
    case NonPositivePrice =>
      exists k | 0 <= k < |ids| :: NotPositive(variants[ids[k]].price, variants[ids[k]].promotion)
    case AvailableStockMissing => exists k | 0 <= k < |ids| :: !InStock(f, ids[k])
    case _ => false
  }

  lemma {:induction false} RowBlockersTell(variants: seq<Variant>, ids: seq<nat>, f: Facts)
    requires Rows(variants, ids)
    ensures forall b :: b in RowBlockers(variants, ids, f) <==> RowsBlock(variants, ids, f, b)
  {
    if ids != [] {
      var n := |ids| - 1;
      RowBlockersTell(variants, ids[..n], f);
      forall b
        ensures RowsBlock(variants, ids, f, b) <==>
          (RowsBlock(variants, ids[..n], f, b) || b in LastBlocker(variants, ids, f))
      {
        LastRow(variants, ids, f, b);
      }
    }
  }

  function LastBlocker(variants: seq<Variant>, ids: seq<nat>, f: Facts): seq<Blocker>
    requires Rows(variants, ids) && ids != []
  {
    var n := |ids| - 1;
    RowBlocker(variants[ids[n]], ids[n], SkusOf(variants, ids[..n]), f)
  }

  lemma LastRow(variants: seq<Variant>, ids: seq<nat>, f: Facts, b: Blocker)
    requires Rows(variants, ids) && ids != []
    ensures RowsBlock(variants, ids, f, b) <==>
      (RowsBlock(variants, ids[..|ids| - 1], f, b) || b in LastBlocker(variants, ids, f))
  {
    var n := |ids| - 1;
    assert forall k | 0 <= k < n :: ids[..n][k] == ids[k];
    if variants[ids[n]].sku != 0 { SkusMeaning(variants, ids[..n], variants[ids[n]].sku); }
  }

  lemma PicturesTell(s: Store, p: nat, f: Facts)
    ensures Imaged(PublicOf(s.variants, p), f) <==> HasPicture(s, p, f)
  {
    var ids := PublicOf(s.variants, p);
    if v: nat :| OnSale(s, v, p) && Pictured(f, v) { var k :| 0 <= k < |ids| && ids[k] == v; }
    if k :| 0 <= k < |ids| && ImagesOf(f, ids[k]) > 0 { assert OnSale(s, ids[k], p) && Pictured(f, ids[k]); }
  }

  lemma SellersTell(s: Store, p: nat)
    ensures PublicOf(s.variants, p) == [] <==> forall v: nat :: !OnSale(s, v, p)
  {
    var ids := PublicOf(s.variants, p);
    if ids != [] { assert ids[0] in ids && OnSale(s, ids[0], p); }
  }

  lemma PricesTell(s: Store, p: nat, base: Option<int>)
    ensures Priced(base, s.variants, PublicOf(s.variants, p)) <==>
      (base.Some? && base.value > 0) || exists v: nat | OnSale(s, v, p) :: s.variants[v].price > 0
  {
    var ids := PublicOf(s.variants, p);
    if v: nat :| OnSale(s, v, p) && s.variants[v].price > 0 {
      assert v in ids;
      var k :| 0 <= k < |ids| && ids[k] == v;
    }
    if k :| 0 <= k < |ids| && s.variants[ids[k]].price > 0 { assert ids[k] in ids && OnSale(s, ids[k], p); }
  }

  lemma RowsTell(s: Store, p: nat, f: Facts, b: Blocker)
    ensures RowsBlock(s.variants, PublicOf(s.variants, p), f, b) <==> SellerBlocks(s, p, f, b)
  {
    var ids := PublicOf(s.variants, p);
    PublicAscends(s.variants, p);
    assert forall v: nat :: OnSale(s, v, p) <==> exists k :: 0 <= k < |ids| && ids[k] == v;
  }

  lemma FlagMembers(p: Product, priced: bool, available: int, imaged: bool, unresolved: nat, confirmed: bool,
    flags: seq<Blocker>, b: Blocker)
    requires flags == FlagBlockers(p, priced, available, imaged, unresolved, confirmed)
    ensures b in flags <==>
      match b
      case PricingReviewRequired => p.requiresPricing && !priced
      case StockReviewRequired => p.requiresStock && available <= 0
      case MediaReviewRequired => p.needsMediaReview && !imaged
      case MediaReviewPending => unresolved > 0
      case MediaReviewConfirmationRequired => p.needsMediaReview && !confirmed
      case _ => false
  {
  }

  /** What blocks a product itself. */
  predicate ListBlocks(p: Product, priced: bool, available: int, imaged: bool, confirmed: bool, sellers: bool,
    positive: bool, f: Facts, b: Blocker) {
    match b
    case PricingReviewRequired => p.requiresPricing && !priced
    case StockReviewRequired => p.requiresStock && available <= 0
    case MediaReviewRequired => p.needsMediaReview && !imaged
    case MediaReviewPending => f.unresolvedImages > 0
    case MediaReviewConfirmationRequired => p.needsMediaReview && !confirmed
    case SellableVariantMissing => !sellers
    case NonPositivePrice => !positive
    case ApprovedImageMissing => !imaged
    case DeliveryMethodMissing => f.deliveryMissing
    case _ => false
  }

  lemma Joined(flags: seq<Blocker>, c1: bool, c2: bool, b: Blocker)
    ensures b in flags + If(c1, SellableVariantMissing) + If(c2, NonPositivePrice) <==>
      b in flags || (c1 && b == SellableVariantMissing) || (c2 && b == NonPositivePrice)
  {
  }

  lemma OwnMembers(p: Product, priced: bool, available: int, imaged: bool, confirmed: bool, sellers: bool,
    positive: bool, f: Facts, own: seq<Blocker>, b: Blocker)
    requires own == OwnBlockers(p, priced, available, imaged, f.unresolvedImages, confirmed, sellers, positive)
    ensures b in own <==>
      b != ApprovedImageMissing && b != DeliveryMethodMissing &&
      ListBlocks(p, priced, available, imaged, confirmed, sellers, positive, f, b)
  {
    var flags := FlagBlockers(p, priced, available, imaged, f.unresolvedImages, confirmed);
    FlagMembers(p, priced, available, imaged, f.unresolvedImages, confirmed, flags, b);
    Joined(flags, !sellers, !positive, b);
  }

  lemma LaterMembers(flags: seq<Blocker>, c1: bool, c2: bool, c3: bool, c4: bool, c5: bool, c6: bool, b: Blocker)
    ensures (b in flags + If(c1, SkuInvalid) + If(c2, SkuDuplicate) + If(c3, NonPositivePrice) +
        If(c4, AvailableStockMissing) + If(c5, ApprovedImageMissing) + If(c6, DeliveryMethodMissing)) <==>
      (b in flags ||
       match b
       case SkuInvalid => c1
       case SkuDuplicate => c2
       case NonPositivePrice => c3
       case AvailableStockMissing => c4
       case ApprovedImageMissing => c5
       case DeliveryMethodMissing => c6
       case _ => false)
  {
  }

  lemma WholeMembers(own: seq<Blocker>, rows: seq<Blocker>, unpictured: bool, undeliverable: bool, b: Blocker)
    ensures b in own + rows + If(unpictured, ApprovedImageMissing) + If(undeliverable, DeliveryMethodMissing) <==>
      (b in own || b in rows || (unpictured && b == ApprovedImageMissing) ||
       (undeliverable && b == DeliveryMethodMissing))
  {
  }

  lemma ProductParts(row: Product, base: Option<int>, promotion: Option<int>, confirmed: bool, variants: seq<Variant>,
    ids: seq<nat>, f: Facts, own: seq<Blocker>, rows: seq<Blocker>, b: Blocker)
    requires Rows(variants, ids) && rows == RowBlockers(variants, ids, f)
    requires own == OwnBlockers(row, Priced(base, variants, ids), TotalAvailable(ids, f), Imaged(ids, f),
      f.unresolvedImages, confirmed, ids != [], BasePositive(base, promotion))
    ensures b in ProductBlockers(row, base, promotion, confirmed, variants, ids, f) <==>
      (b in own || b in rows || (!Imaged(ids, f) && b == ApprovedImageMissing) ||
       (f.deliveryMissing && b == DeliveryMethodMissing))
  {
    WholeMembers(own, rows, !Imaged(ids, f), f.deliveryMissing, b);
  }

  lemma ProductMembers(row: Product, base: Option<int>, promotion: Option<int>, confirmed: bool,
    variants: seq<Variant>, ids: seq<nat>, f: Facts, own: seq<Blocker>, rows: seq<Blocker>, b: Blocker)
    requires Rows(variants, ids) && rows == RowBlockers(variants, ids, f)
    requires own == OwnBlockers(row, Priced(base, variants, ids), TotalAvailable(ids, f), Imaged(ids, f),
      f.unresolvedImages, confirmed, ids != [], BasePositive(base, promotion))
    ensures b in ProductBlockers(row, base, promotion, confirmed, variants, ids, f) <==>
      b in rows || ListBlocks(row, Priced(base, variants, ids), TotalAvailable(ids, f), Imaged(ids, f), confirmed,
        ids != [], BasePositive(base, promotion), f, b)
  {
    OwnMembers(row, Priced(base, variants, ids), TotalAvailable(ids, f), Imaged(ids, f), confirmed, ids != [],
      BasePositive(base, promotion), f, own, b);
    ProductParts(row, base, promotion, confirmed, variants, ids, f, own, rows, b);
  }

  lemma ListTell(s: Store, p: nat, row: Product, base: Option<int>, promotion: Option<int>, confirmed: bool, f: Facts,
    b: Blocker)
    ensures var ids := PublicOf(s.variants, p);
      OwnBlocks(s, p, row, base, promotion, confirmed, f, b) <==>
      ListBlocks(row, Priced(base, s.variants, ids), TotalAvailable(ids, f), Imaged(ids, f), confirmed, ids != [],
        BasePositive(base, promotion), f, b)
  {
    StockIs(s.variants, p, f);
    SellersTell(s, p);
    PricesTell(s, p, base);
    PicturesTell(s, p, f);
  }

  lemma RowTell(variants: seq<Variant>, ids: seq<nat>, f: Facts, rows: seq<Blocker>, b: Blocker)
    requires Rows(variants, ids) && rows == RowBlockers(variants, ids, f)
    ensures b in rows <==> RowsBlock(variants, ids, f, b)
  {
    RowBlockersTell(variants, ids, f);
  }

  /** The blockers of a product that is not published are exactly those that stand against it. */
  lemma ProductBlockersTell(s: Store, p: nat, row: Product, base: Option<int>, promotion: Option<int>, confirmed: bool,
    f: Facts, b: Blocker)
    ensures b in ProductBlockers(row, base, promotion, confirmed, s.variants, PublicOf(s.variants, p), f) <==>
      Blocks(s, p, row, base, promotion, confirmed, f, b)
  {
    var ids := PublicOf(s.variants, p);
    var own := OwnBlockers(row, Priced(base, s.variants, ids), TotalAvailable(ids, f), Imaged(ids, f),
      f.unresolvedImages, confirmed, ids != [], BasePositive(base, promotion));
    var rows := RowBlockers(s.variants, ids, f);
    ProductMembers(row, base, promotion, confirmed, s.variants, ids, f, own, rows, b);
    RowTell(s.variants, ids, f, rows, b);
    RowsTell(s, p, f, b);
    ListTell(s, p, row, base, promotion, confirmed, f, b);
  }

  lemma VariantParts(product: Product, v: nat, sku: nat, price: int, promotion: Option<int>, f: Facts,
    flags: seq<Blocker>, b: Blocker)
    requires flags == FlagBlockers(product, price > 0, AvailableOf(f, v), f.productImages + ImagesOf(f, v) > 0,
      f.unresolvedImages, false)
    ensures b in VariantBlockers(product, v, sku, price, promotion, f) <==>
      (b in flags ||
       match b
       case SkuInvalid => sku == 0
       case SkuDuplicate => f.skuTaken
       case NonPositivePrice => !Positive(price, promotion)
       case AvailableStockMissing => AvailableOf(f, v) <= 0
       case ApprovedImageMissing => f.productImages + ImagesOf(f, v) == 0
       case DeliveryMethodMissing => f.deliveryMissing
       case _ => false)
  {
    LaterMembers(flags, sku == 0, f.skuTaken, !Positive(price, promotion), AvailableOf(f, v) <= 0,
      f.productImages + ImagesOf(f, v) == 0, f.deliveryMissing, b);
  }

  lemma VariantBlockersTell(product: Product, v: nat, sku: nat, price: int, promotion: Option<int>, f: Facts,
    b: Blocker)
    ensures b in VariantBlockers(product, v, sku, price, promotion, f) <==>
      VariantBlocks(product, v, sku, price, promotion, f, b)
  {
    var flags := FlagBlockers(product, price > 0, AvailableOf(f, v), f.productImages + ImagesOf(f, v) > 0,
      f.unresolvedImages, false);
    FlagMembers(product, price > 0, AvailableOf(f, v), f.productImages + ImagesOf(f, v) > 0, f.unresolvedImages, false,
      flags, b);
    VariantParts(product, v, sku, price, promotion, f, flags, b);
  }

  // What an update of a product writes and answers.

  predicate OnlyProduct(s: Store, t: Store, p: nat) {
    && t == s.(products := t.products) && p < |s.products| == |t.products|
    && forall q | 0 <= q < |s.products| && q != p :: t.products[q] == s.products[q]
  }

  /** Every field that is given has its value and every other one is kept. Publishing clears the three
      review flags; a confirmation that changes no status clears the media flag of a published product. */
  lemma UpdateProductWrites(s: Store, r: Request, f: Facts)
    requires Reachable(s) && r in s.requests && r.UpdateProduct? && Commit(s, r, f).Ok?
    ensures OnlyProduct(s, Commit(s, r, f).value, r.product)
    ensures
      var i, row, after := r.productInput, s.products[r.product], Commit(s, r, f).value.products[r.product];
      && row == r.productRead && row.version == i.version && after.version == row.version + 1
      && after.base == Given(i.base, row.base) && after.promotion == Given(i.promotion, row.promotion)
      && after.status == Given(i.status, row.status)
      && (i.mediaConfirmed ==> row.needsMediaReview && after.status == Published)
      && after.requiresPricing == (row.requiresPricing && i.status != Some(Published))
      && after.requiresStock == (row.requiresStock && i.status != Some(Published))
      && after.needsMediaReview == (row.needsMediaReview && i.status != Some(Published) && !i.mediaConfirmed)
  {
    ReachableInv(s);
    assert RequestOk(s, r);
  }

  /** The product's own prices and media let a published product stay so, or nothing blocks another. */
  ghost predicate ProductPasses(s: Store, p: nat, i: ProductInput, row: Product, f: Facts) {
    var base, promotion := Given(i.base, row.base), Given(i.promotion, row.promotion);
    if row.status != Published then forall b :: !Blocks(s, p, row, base, promotion, i.mediaConfirmed, f, b)
    else
      && (forall b :: !MediaBlocks(row, i.mediaConfirmed, f, b)) && !OwnNotPositive(base, promotion)
      && (base.Some? || exists v: nat :: OnSale(s, v, p))
  }

  /** The refusal names exactly what stands against the publication. */
  ghost predicate ProductRefused(s: Store, p: nat, i: ProductInput, row: Product, f: Facts, e: Refusal) {
    var base, promotion := Given(i.base, row.base), Given(i.promotion, row.promotion);
    match e
    case NotReady(blockers) =>
      && blockers != []
      && if row.status != Published
         then forall b :: b in blockers <==> Blocks(s, p, row, base, promotion, i.mediaConfirmed, f, b)
         else if exists b :: MediaBlocks(row, i.mediaConfirmed, f, b)
         then forall b :: b in blockers <==> MediaBlocks(row, i.mediaConfirmed, f, b)
         else blockers == [NonPositivePrice] && OwnNotPositive(base, promotion)
    case RequirementsMissing => row.status == Published && base.None? && forall v: nat :: !OnSale(s, v, p)
    case _ => false
  }

  lemma DraftTells(s: Store, p: nat, i: ProductInput, row: Product, f: Facts, blockers: seq<Blocker>)
    requires row.status != Published
    requires blockers == ProductBlockers(row, Given(i.base, row.base), Given(i.promotion, row.promotion),
      i.mediaConfirmed, s.variants, PublicOf(s.variants, p), f)
    ensures if blockers == [] then ProductPasses(s, p, i, row, f)
      else ProductRefused(s, p, i, row, f, NotReady(blockers)) && !ProductPasses(s, p, i, row, f)
  {
    var base, promotion := Given(i.base, row.base), Given(i.promotion, row.promotion);
    forall b ensures b in blockers <==> Blocks(s, p, row, base, promotion, i.mediaConfirmed, f, b) {
      ProductBlockersTell(s, p, row, base, promotion, i.mediaConfirmed, f, b);
    }
    if blockers != [] { assert blockers[0] in blockers; }
  }

  lemma MediaTells(row: Product, confirmed: bool, f: Facts)
    ensures forall b :: b in MediaBlockers(row, confirmed, f) <==> MediaBlocks(row, confirmed, f, b)
    ensures MediaBlockers(row, confirmed, f) == [] <==> forall b :: !MediaBlocks(row, confirmed, f, b)
  {
    var blockers := MediaBlockers(row, confirmed, f);
    if blockers != [] { assert blockers[0] in blockers; }
  }

  lemma CheckProductTells(s: Store, p: nat, i: ProductInput, row: Product, f: Facts)
    ensures match CheckProduct(s, p, i, row, f)
      case Ok(_) => ProductPasses(s, p, i, row, f)
      case Err(e) => ProductRefused(s, p, i, row, f, e) && !ProductPasses(s, p, i, row, f)
  {
    if row.status != Published {
      DraftTells(s, p, i, row, f, ProductBlockers(row, Given(i.base, row.base), Given(i.promotion, row.promotion),
        i.mediaConfirmed, s.variants, PublicOf(s.variants, p), f));
    } else {
      SellersTell(s, p);
      MediaTells(row, i.mediaConfirmed, f);
    }
  }

  /** What each answer of the check of an update says of the row. */
  ghost predicate ProductAnswer(s: Store, p: nat, i: ProductInput, f: Facts, answer: Result<Request, Refusal>)
    requires p < |s.products|
  {
    var row := s.products[p];
    var base, promotion := Given(i.base, row.base), Given(i.promotion, row.promotion);
    var publishes := Given(i.status, row.status) == Published;
    match answer
    case Err(VersionConflict) => row.version != i.version
    case Err(ProductIsArchived) => row.status == Archived
    case Err(ConfirmationNotApplicable) => i.mediaConfirmed && !(publishes && row.needsMediaReview)
    case Err(InvalidReference) => !f.references
    case Err(InvalidPromotion) => promotion.Some? && (base.None? || base.value < promotion.value)
    case Err(e) => publishes && ProductRefused(s, p, i, row, f, e)
    case Ok(r) =>
      && r == UpdateProduct(p, i, row) && row.version == i.version && row.status != Archived && f.references
      && (i.mediaConfirmed ==> publishes && row.needsMediaReview)
      && (promotion.Some? ==> base.Some? && promotion.value <= base.value)
      && (publishes ==> ProductPasses(s, p, i, row, f))
  }

  /** An update is opened on the row as it is, or refused for a reason that holds. */
  lemma OpenProductTells(s: Store, p: nat, i: ProductInput, f: Facts)
    ensures var answer := OpenProductUpdate(s, p, i, f);
      if i.base.None? && i.promotion.None? && i.status.None? && !i.mediaConfirmed && !i.others
      then answer == Err(NoChanges)
      else if p >= |s.products| then answer == Err(NotFound)
      else ProductAnswer(s, p, i, f, answer)
  {
    if p < |s.products| { CheckProductTells(s, p, i, s.products[p], f); }
  }

  /** What its transaction answers: it is refused exactly if the version has passed, or if it publishes
      against a missing reference or a blocker. */
  lemma UpdateProductTells(s: Store, r: Request, f: Facts)
    requires Reachable(s) && r in s.requests && r.UpdateProduct?
    ensures r.product < |s.products|
    ensures
      var i, row := r.productInput, s.products[r.product];
      var publishes := Given(i.status, r.productRead.status) == Published;
      match Commit(s, r, f)
      case Err(VersionConflict) => row.version != i.version
      case Err(InvalidReference) => row.version == i.version && publishes && !f.references
      case Err(e) => row.version == i.version && publishes && ProductRefused(s, r.product, i, row, f, e)
      case Ok(_) => row.version == i.version && (publishes ==> f.references && ProductPasses(s, r.product, i, row, f))
  {
    ReachableInv(s);
    assert RequestOk(s, r);
    CheckProductTells(s, r.product, r.productInput, r.productRead, f);
  }

  /** Archiving and restoring write the status alone. */
  lemma ArchiveProductWrites(s: Store, r: Request, f: Facts)
    requires Reachable(s) && r in s.requests && r.ArchiveProduct?
    ensures r.product < |s.products|
    ensures var row := s.products[r.product];
      match Commit(s, r, f)
      case Err(e) => e == VersionConflict && row.version != r.productRead.version
      case Ok(t) =>
        && row == r.productRead && OnlyProduct(s, t, r.product)
        && t.products[r.product] == Product(if r.archive then Archived else Draft, row.base, row.promotion,
             row.requiresPricing, row.requiresStock, row.needsMediaReview, row.version + 1)
  {
    ReachableInv(s);
    assert RequestOk(s, r);
  }

  lemma OpenProductArchiveTells(s: Store, p: nat, version: nat, archive: bool)
    ensures match OpenProductArchive(s, p, version, archive)
      case Err(NotFound) => p >= |s.products|
      case Err(VersionConflict) => p < |s.products| && s.products[p].version != version
      case Err(AlreadyArchived) => archive && p < |s.products| && s.products[p].status == Archived
      case Err(NotArchived) => !archive && p < |s.products| && s.products[p].status != Archived
      case Err(_) => false
      case Ok(r) =>
        && p < |s.products| && s.products[p].version == version && (s.products[p].status == Archived <==> !archive)
        && r == ArchiveProduct(p, archive, s.products[p])
  {
  }

  // What an update of a variant writes and answers.

  predicate OnlyVariant(s: Store, t: Store, v: nat) {
    && t == s.(variants := t.variants) && v < |s.variants| == |t.variants|
    && forall w | 0 <= w < |s.variants| && w != v :: t.variants[w] == s.variants[w]
  }

  /** Every field that is given has its value and every other one is kept. */
  lemma UpdateVariantWrites(s: Store, r: Request, f: Facts)
    requires Reachable(s) && r in s.requests && r.UpdateVariant? && Commit(s, r, f).Ok?
    ensures OnlyVariant(s, Commit(s, r, f).value, r.variant)
    ensures
      var i, row, after := r.variantInput, s.variants[r.variant], Commit(s, r, f).value.variants[r.variant];
      && row == r.variantRead && row.version == i.version && !row.archived
      && after == Variant(row.product, Given(i.status, row.status), false, Given(i.sku, row.sku),
           Given(i.price, row.price), Given(i.promotion, row.promotion), row.version + 1)
  {
    ReachableInv(s);
    assert RequestOk(s, r);
  }

  /** A published variant keeps a SKU and positive prices; nothing blocks another one, whose product is
      not archived. */
  ghost predicate VariantPasses(s: Store, v: nat, i: VariantInput, row: Variant, f: Facts)
    requires row.product < |s.products|
  {
    var sku, price, promotion := Given(i.sku, row.sku), Given(i.price, row.price), Given(i.promotion, row.promotion);
    if row.status == Published then forall b :: !PriceBlocks(sku, price, promotion, b)
    else
      s.products[row.product].status != Archived &&
      forall b :: !VariantBlocks(s.products[row.product], v, sku, price, promotion, f, b)
  }

  ghost predicate VariantRefused(s: Store, v: nat, i: VariantInput, row: Variant, f: Facts, e: Refusal)
    requires row.product < |s.products|
  {
    var sku, price, promotion := Given(i.sku, row.sku), Given(i.price, row.price), Given(i.promotion, row.promotion);
    match e
    case NotReady(blockers) =>
      && blockers != []
      && if row.status == Published then forall b :: b in blockers <==> PriceBlocks(sku, price, promotion, b)
         else forall b :: b in blockers <==> VariantBlocks(s.products[row.product], v, sku, price, promotion, f, b)
    case ProductIsArchived => row.status != Published && s.products[row.product].status == Archived
    case _ => false
  }

  lemma VariantTells(product: Product, v: nat, sku: nat, price: int, promotion: Option<int>, f: Facts,
    blockers: seq<Blocker>)
    requires blockers == VariantBlockers(product, v, sku, price, promotion, f)
    ensures forall b :: b in blockers <==> VariantBlocks(product, v, sku, price, promotion, f, b)
    ensures blockers == [] <==> forall b :: !VariantBlocks(product, v, sku, price, promotion, f, b)
  {
    forall b ensures b in blockers <==> VariantBlocks(product, v, sku, price, promotion, f, b) {
      VariantBlockersTell(product, v, sku, price, promotion, f, b);
    }
    if blockers != [] { assert blockers[0] in blockers; }
  }

  lemma PriceTells(sku: nat, price: int, promotion: Option<int>, blockers: seq<Blocker>)
    requires blockers == UpdatedVariantBlockers(sku, price, promotion)
    ensures forall b :: b in blockers <==> PriceBlocks(sku, price, promotion, b)
    ensures blockers == [] <==> forall b :: !PriceBlocks(sku, price, promotion, b)
  {
    if blockers != [] { assert blockers[0] in blockers; }
  }

  lemma CheckVariantTells(s: Store, v: nat, i: VariantInput, row: Variant, f: Facts)
    requires row.product < |s.products|
    ensures match CheckVariant(s, v, i, row, f)
      case Ok(_) => VariantPasses(s, v, i, row, f)
      case Err(e) => VariantRefused(s, v, i, row, f, e) && !VariantPasses(s, v, i, row, f)
  {
    var sku, price, promotion := Given(i.sku, row.sku), Given(i.price, row.price), Given(i.promotion, row.promotion);
    if row.status == Published {
      PriceTells(sku, price, promotion, UpdatedVariantBlockers(sku, price, promotion));
    } else {
      var product := s.products[row.product];
      VariantTells(product, v, sku, price, promotion, f, VariantBlockers(product, v, sku, price, promotion, f));
    }
  }

  /** What each answer of the check of an update says of the row. */
  ghost predicate VariantAnswer(s: Store, v: nat, i: VariantInput, f: Facts, answer: Result<Request, Refusal>)
    requires v < |s.variants| && s.variants[v].product < |s.products|
  {
    var row := s.variants[v];
    var price, promotion := Given(i.price, row.price), Given(i.promotion, row.promotion);
    var given := i.price.Some? || i.promotion.Some? || i.sku.Some? || i.status.Some? || i.others;
    var publishes := Given(i.status, row.status) == Published;
    match answer
    case Err(ArchivedConflict) => row.archived
    case Err(NoChanges) => !given
    case Err(VersionConflict) => row.version != i.version
    case Err(InvalidPromotion) => promotion.Some? && price < promotion.value
    case Err(e) => publishes && VariantRefused(s, v, i, row, f, e)
    case Ok(r) =>
      && r == UpdateVariant(v, i, row) && !row.archived && given && row.version == i.version
      && (promotion.Some? ==> promotion.value <= price) && (publishes ==> VariantPasses(s, v, i, row, f))
  }

  /** An update is opened on the row as it is, or refused for a reason that holds. */
  lemma OpenVariantTells(s: Store, v: nat, i: VariantInput, f: Facts)
    requires Reachable(s)
    ensures if v >= |s.variants| then OpenVariantUpdate(s, v, i, f) == Err(NotFound)
      else s.variants[v].product < |s.products| && VariantAnswer(s, v, i, f, OpenVariantUpdate(s, v, i, f))
  {
    ReachableInv(s);
    if v < |s.variants| {
      assert s.variants[v] in s.variants && VariantOk(s, s.variants[v]);
      CheckVariantTells(s, v, i, s.variants[v], f);
    }
  }

  /** Another variant that the product of this one can sell. */
  ghost predicate OtherSeller(s: Store, v: nat, p: nat) {
    exists w: nat | OnSale(s, w, p) :: w != v && !NotPositive(s.variants[w].price, s.variants[w].promotion)
  }

  /** The product is published and would be left with nothing to sell. */
  ghost predicate LastSeller(s: Store, v: nat, p: nat)
    requires p < |s.products|
  {
    s.products[p].status == Published && !OtherSeller(s, v, p)
  }

  lemma UpdateVariantTells(s: Store, r: Request, f: Facts)
    requires Reachable(s) && r in s.requests && r.UpdateVariant?
    ensures r.variant < |s.variants| && s.variants[r.variant].product < |s.products|
    ensures
      var i, row := r.variantInput, s.variants[r.variant];
      var publishes := Given(i.status, r.variantRead.status) == Published;
      var leaves := r.variantRead.status == Published && !publishes;
      match Commit(s, r, f)
      case Err(VersionConflict) => row.version != i.version
      case Err(e) => row.version == i.version &&
        (if publishes then VariantRefused(s, r.variant, i, row, f, e)
         else leaves && e == NotReady([SellableVariantMissing]) && LastSeller(s, r.variant, row.product))
      case Ok(_) =>
        && row.version == i.version && (publishes ==> VariantPasses(s, r.variant, i, row, f))
        && (leaves ==> !LastSeller(s, r.variant, row.product))
  {
    ReachableInv(s);
    assert RequestOk(s, r);
    var row := s.variants[r.variant];
    assert row in s.variants && VariantOk(s, row);
    if row.version == r.variantInput.version {
      CheckVariantTells(s, r.variant, r.variantInput, row, f);
      RetainsIs(s, r.variant, row.product);
    }
  }

  lemma RetainsIs(s: Store, v: nat, p: nat)
    ensures Retains(s.variants, p, v) <==> OtherSeller(s, v, p)
  {
    if w: nat :| w < |s.variants| && w != v && s.variants[w].product == p && Sellable(s.variants[w]) {
      assert OnSale(s, w, p);
    }
  }

  /** Archiving and restoring a variant leave it a draft; nothing else is written. */
  lemma ArchiveVariantWrites(s: Store, r: Request, f: Facts)
    requires Reachable(s) && r in s.requests && r.ArchiveVariant?
    ensures r.variant < |s.variants| && s.variants[r.variant].product < |s.products|
    ensures
      var row := s.variants[r.variant];
      var leaves := r.archive && r.variantRead.status == Published;
      match Commit(s, r, f)
      case Err(VersionConflict) => row.version != r.variantRead.version
      case Err(e) => leaves && e == NotReady([SellableVariantMissing]) && LastSeller(s, r.variant, row.product)
      case Ok(t) =>
        && row == r.variantRead && OnlyVariant(s, t, r.variant)
        && t.variants[r.variant] ==
             Variant(row.product, Draft, r.archive, row.sku, row.price, row.promotion, row.version + 1)
        && (leaves ==> !LastSeller(s, r.variant, row.product))
  {
    ReachableInv(s);
    assert RequestOk(s, r);
    var row := s.variants[r.variant];
    assert row in s.variants && VariantOk(s, row);
    RetainsIs(s, r.variant, row.product);
  }

  lemma OpenVariantArchiveTells(s: Store, v: nat, version: nat, archive: bool)
    ensures match OpenVariantArchive(s, v, version, archive)
      case Err(NotFound) => v >= |s.variants|
      case Err(VersionConflict) => v < |s.variants| && s.variants[v].version != version
      case Err(AlreadyArchived) => archive && v < |s.variants| && s.variants[v].archived
      case Err(NotArchived) => !archive && v < |s.variants| && !s.variants[v].archived
      case Err(_) => false
      case Ok(r) =>
        && v < |s.variants| && s.variants[v].version == version && s.variants[v].archived != archive
        && r == ArchiveVariant(v, archive, s.variants[v])
  {
  }

  // Creation.

  /** New rows are drafts of the first version. */
  lemma CreationWrites(s: Store, base: Option<int>, promotion: Option<int>, needsPricing: bool, needsStock: bool,
    needsMedia: bool, p: nat, sku: nat, price: int)
    ensures match CreateProduct(s, base, promotion, needsPricing, needsStock, needsMedia)
      case Err(e) => e == InvalidPromotion && promotion.Some? && (base.None? || base.value < promotion.value)
      case Ok(t) =>
        && (promotion.Some? ==> base.Some? && promotion.value <= base.value)
        && t == s.(products := s.products +
             [Product(Draft, base, promotion, needsPricing, needsStock, needsMedia, 1)])
    ensures match CreateVariant(s, p, sku, price, promotion)
      case Err(NotFound) => p >= |s.products|
      case Err(ProductIsArchived) => p < |s.products| && s.products[p].status == Archived
      case Err(InvalidPromotion) => promotion.Some? && price < promotion.value
      case Err(_) => false
      case Ok(t) =>
        && p < |s.products| && s.products[p].status != Archived && (promotion.Some? ==> promotion.value <= price)
        && t == s.(variants := s.variants + [Variant(p, Draft, false, sku, price, promotion, 1)])
  {
  }
}
