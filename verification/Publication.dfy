/** Publishing products and variants. An admin request reads its row, checks it, and writes in a
    later transaction that only the row's version ties to what was read; any number of requests
    may be under way at once. */
module Publication {
  import opened Wrappers

  datatype Status = Draft | Published | Suspended | Archived

  /** A blank SKU is 0. */
  datatype Variant = Variant(
    product: nat, status: Status, archived: bool, sku: nat, price: int, promotion: Option<int>, version: nat)

  datatype Product = Product(
    status: Status, base: Option<int>, promotion: Option<int>,
    requiresPricing: bool, requiresStock: bool, needsMediaReview: bool, version: nat)

  datatype VariantInput = VariantInput(
    version: nat, price: Option<int>, promotion: Option<Option<int>>, sku: Option<nat>, status: Option<Status>,
    others: bool)

  datatype ProductInput = ProductInput(
    version: nat, base: Option<Option<int>>, promotion: Option<Option<int>>, status: Option<Status>,
    mediaConfirmed: bool, others: bool)

  /** A request that passed its checks, with the row it read. */
  datatype Request =
    | UpdateVariant(variant: nat, variantInput: VariantInput, variantRead: Variant)
    | ArchiveVariant(variant: nat, archive: bool, variantRead: Variant)
    | UpdateProduct(product: nat, productInput: ProductInput, productRead: Product)
    | ArchiveProduct(product: nat, archive: bool, productRead: Product)

  datatype Store = Store(products: seq<Product>, variants: seq<Variant>, requests: seq<Request>)

  /** What stock, media, delivery and references say when they are asked. */
  datatype Facts = Facts(
    available: map<nat, int>, productImages: nat, variantImages: map<nat, nat>, unresolvedImages: nat,
    publicImages: nat, deliveryMissing: bool, skuTaken: bool, references: bool)

  datatype Blocker =
    | PricingReviewRequired | StockReviewRequired | MediaReviewRequired | MediaReviewPending
    | MediaReviewConfirmationRequired | SkuInvalid | SkuDuplicate | NonPositivePrice
    | AvailableStockMissing | ApprovedImageMissing | DeliveryMethodMissing | SellableVariantMissing

  datatype Refusal =
    | NotFound | VersionConflict | ArchivedConflict | ProductIsArchived | NoChanges | InvalidPromotion
    | InvalidReference | ConfirmationNotApplicable | RequirementsMissing | AlreadyArchived | NotArchived
    | NotReady(blockers: seq<Blocker>)

  const Empty := Store([], [], [])

  // Prices.

  predicate VariantPromotionOk(price: int, promotion: Option<int>) { promotion.Some? ==> promotion.value <= price }

  predicate ProductPromotionOk(base: Option<int>, promotion: Option<int>) {
    promotion.Some? ==> base.Some? && promotion.value <= base.value
  }

  predicate Positive(price: int, promotion: Option<int>) { price > 0 && (promotion.Some? ==> promotion.value > 0) }

  predicate BasePositive(base: Option<int>, promotion: Option<int>) {
    (base.Some? ==> base.value > 0) && (promotion.Some? ==> promotion.value > 0)
  }

  predicate Public(v: Variant) { v.status == Published && !v.archived }

  predicate Sellable(v: Variant) { Public(v) && Positive(v.price, v.promotion) }

  // Blockers.

  function If(condition: bool, b: Blocker): seq<Blocker> { if condition then [b] else [] }

  function AvailableOf(f: Facts, v: nat): int { if v in f.available then f.available[v] else 0 }

  function ImagesOf(f: Facts, v: nat): nat { if v in f.variantImages then f.variantImages[v] else 0 }

  /** The blockers of the product's review flags and of unresolved images. */
  function FlagBlockers(p: Product, priced: bool, available: int, imaged: bool, unresolved: nat,
    confirmed: bool): seq<Blocker> {
    If(p.requiresPricing && !priced, PricingReviewRequired)
    + If(p.requiresStock && available <= 0, StockReviewRequired)
    + If(p.needsMediaReview && !imaged, MediaReviewRequired)
    + If(unresolved > 0, MediaReviewPending)
    + If(p.needsMediaReview && !confirmed, MediaReviewConfirmationRequired)
  }

  /** What keeps a variant from being published. */
  function VariantBlockers(p: Product, v: nat, sku: nat, price: int, promotion: Option<int>, f: Facts): seq<Blocker> {
    var available := AvailableOf(f, v);
    var images := f.productImages + ImagesOf(f, v);
    FlagBlockers(p, price > 0, available, images > 0, f.unresolvedImages, false)
    + If(sku == 0, SkuInvalid)
    + If(f.skuTaken, SkuDuplicate)
    + If(!Positive(price, promotion), NonPositivePrice)
    + If(available <= 0, AvailableStockMissing)
    + If(images == 0, ApprovedImageMissing)
    + If(f.deliveryMissing, DeliveryMethodMissing)
  }

  function UpdatedVariantBlockers(sku: nat, price: int, promotion: Option<int>): seq<Blocker> {
    If(sku == 0, SkuInvalid) + If(!Positive(price, promotion), NonPositivePrice)
  }

  /** The public variants of a product, by id. */
  function PublicOf(variants: seq<Variant>, p: nat): (r: seq<nat>)
    ensures Rows(variants, r)
    ensures forall v: nat :: v in r <==> v < |variants| && variants[v].product == p && Public(variants[v])
  {
    if variants == [] then []
    else
      var n := |variants| - 1;
      PublicOf(variants[..n], p) + if variants[n].product == p && Public(variants[n]) then [n] else []
  }

  predicate Rows(variants: seq<Variant>, ids: seq<nat>) { forall k | 0 <= k < |ids| :: ids[k] < |variants| }

  function SkusOf(variants: seq<Variant>, ids: seq<nat>): set<nat> {
    set v | v in ids && v < |variants| && variants[v].sku != 0 :: variants[v].sku
  }

  function RowBlocker(row: Variant, v: nat, skus: set<nat>, f: Facts): seq<Blocker> {
    (if row.sku == 0 then [SkuInvalid] else If(row.sku in skus, SkuDuplicate))
    + If(!Positive(row.price, row.promotion), NonPositivePrice)
    + If(AvailableOf(f, v) <= 0, AvailableStockMissing)
  }

  /** The blockers each public variant adds, with the SKUs met before it. */
  function RowBlockers(variants: seq<Variant>, ids: seq<nat>, f: Facts): seq<Blocker>
    requires Rows(variants, ids)
  {
    if ids == [] then []
    else
      var n := |ids| - 1;
      var v := ids[n];
      RowBlockers(variants, ids[..n], f) + RowBlocker(variants[v], v, SkusOf(variants, ids[..n]), f)
  }

  function TotalAvailable(ids: seq<nat>, f: Facts): int {
    if ids == [] then 0 else TotalAvailable(ids[..|ids| - 1], f) + AvailableOf(f, ids[|ids| - 1])
  }

  predicate Imaged(ids: seq<nat>, f: Facts) {
    f.productImages > 0 || exists k | 0 <= k < |ids| :: ImagesOf(f, ids[k]) > 0
  }

  predicate Priced(base: Option<int>, variants: seq<Variant>, ids: seq<nat>)
    requires Rows(variants, ids)
  {
    (base.Some? && base.value > 0) || exists k | 0 <= k < |ids| :: variants[ids[k]].price > 0
  }

  /** The blockers of the product's own flags, prices and media: whether anything is priced, what is
      available, whether there is an image, and whether anything is for sale. */
  function OwnBlockers(p: Product, priced: bool, available: int, imaged: bool, unresolved: nat, confirmed: bool,
    sellers: bool, positive: bool): seq<Blocker> {
    FlagBlockers(p, priced, available, imaged, unresolved, confirmed)
    + If(!sellers, SellableVariantMissing)
    + If(!positive, NonPositivePrice)
  }

  /** What keeps a product from being published. */
  function ProductBlockers(p: Product, base: Option<int>, promotion: Option<int>, confirmed: bool,
                           variants: seq<Variant>, ids: seq<nat>, f: Facts): seq<Blocker>
    requires Rows(variants, ids)
  {
    OwnBlockers(p, Priced(base, variants, ids), TotalAvailable(ids, f), Imaged(ids, f), f.unresolvedImages, confirmed,
      ids != [], BasePositive(base, promotion))
    + RowBlockers(variants, ids, f)
    + If(!Imaged(ids, f), ApprovedImageMissing)
    + If(f.deliveryMissing, DeliveryMethodMissing)
  }

  function MediaBlockers(p: Product, confirmed: bool, f: Facts): seq<Blocker> {
    If(f.unresolvedImages > 0, MediaReviewPending)
    + If(p.needsMediaReview && f.publicImages == 0, ApprovedImageMissing)
    + If(p.needsMediaReview && !confirmed, MediaReviewConfirmationRequired)
  }

  function Ready(blockers: seq<Blocker>): Result<(), Refusal> {
    if blockers == [] then Ok(()) else Err(NotReady(blockers))
  }

  // Creation.

  function CreateProduct(s: Store, base: Option<int>, promotion: Option<int>, needsPricing: bool, needsStock: bool,
    needsMedia: bool): Result<Store, Refusal> {
    if !ProductPromotionOk(base, promotion) then Err(InvalidPromotion)
    else Ok(s.(products := s.products + [Product(Draft, base, promotion, needsPricing, needsStock, needsMedia, 1)]))
  }

  function CreateVariant(s: Store, p: nat, sku: nat, price: int, promotion: Option<int>): Result<Store, Refusal> {
    if p >= |s.products| then Err(NotFound)
    else if s.products[p].status == Archived then Err(ProductIsArchived)
    else if !VariantPromotionOk(price, promotion) then Err(InvalidPromotion)
    else Ok(s.(variants := s.variants + [Variant(p, Draft, false, sku, price, promotion, 1)]))
  }

  // Variant updates.

  function NewPrice(i: VariantInput, v: Variant): int { i.price.GetOr(v.price) }
  function NewPromotion(i: VariantInput, v: Variant): Option<int> { i.promotion.GetOr(v.promotion) }
  function NewSku(i: VariantInput, v: Variant): nat { i.sku.GetOr(v.sku) }
  function NewStatus(i: VariantInput, v: Variant): Status { i.status.GetOr(v.status) }

  predicate Mutable(status: Option<Status>) { status != Some(Archived) }

  /** The checks a variant needs to be published, or to stay so. */
  function CheckVariant(s: Store, v: nat, i: VariantInput, read: Variant, f: Facts): Result<(), Refusal> {
    var sku, price, promotion := NewSku(i, read), NewPrice(i, read), NewPromotion(i, read);
    if read.status == Published then Ready(UpdatedVariantBlockers(sku, price, promotion))
    else if read.product >= |s.products| then Err(NotFound)
    else if s.products[read.product].status == Archived then Err(ProductIsArchived)
    else Ready(VariantBlockers(s.products[read.product], v, sku, price, promotion, f))
  }

  function OpenVariantUpdate(s: Store, v: nat, i: VariantInput, f: Facts): Result<Request, Refusal> {
    if v >= |s.variants| then Err(NotFound) else
    var read := s.variants[v];
    if read.archived then Err(ArchivedConflict)
    else if i.price.None? && i.promotion.None? && i.sku.None? && i.status.None? && !i.others then Err(NoChanges)
    else if read.version != i.version then Err(VersionConflict)
    else if !VariantPromotionOk(NewPrice(i, read), NewPromotion(i, read)) then Err(InvalidPromotion)
    else
      var _ :- if NewStatus(i, read) == Published then CheckVariant(s, v, i, read, f) else Ok(());
      Ok(UpdateVariant(v, i, read))
  }

  /** Another sellable variant of the product remains. */
  predicate Retains(variants: seq<Variant>, p: nat, v: nat) {
    exists w: nat :: w < |variants| && w != v && variants[w].product == p && Sellable(variants[w])
  }

  /** Under the product's lock: a published product must keep a sellable variant. */
  function CheckRetains(s: Store, p: nat, v: nat): Result<(), Refusal> {
    if p >= |s.products| then Err(NotFound)
    else if s.products[p].status != Published || Retains(s.variants, p, v) then Ok(())
    else Err(NotReady([SellableVariantMissing]))
  }

  function UpdatedVariant(i: VariantInput, row: Variant): Variant {
    row.(price := NewPrice(i, row), promotion := NewPromotion(i, row), sku := NewSku(i, row),
         status := NewStatus(i, row), archived := if i.status == Some(Published) then false else row.archived,
         version := row.version + 1)
  }

  function CommitVariantUpdate(s: Store, v: nat, i: VariantInput, read: Variant, f: Facts): Result<Store, Refusal> {
    if v >= |s.variants| || s.variants[v].version != i.version then Err(VersionConflict)
    else
      var _ :-
        if NewStatus(i, read) == Published then CheckVariant(s, v, i, read, f)
        else if read.status == Published then CheckRetains(s, read.product, v)
        else Ok(());
      Ok(s.(variants := s.variants[v := UpdatedVariant(i, s.variants[v])]))
  }

  function OpenVariantArchive(s: Store, v: nat, version: nat, archive: bool): Result<Request, Refusal> {
    if v >= |s.variants| then Err(NotFound)
    else if s.variants[v].version != version then Err(VersionConflict)
    else if s.variants[v].archived == archive then Err(if archive then AlreadyArchived else NotArchived)
    else Ok(ArchiveVariant(v, archive, s.variants[v]))
  }

  function CommitVariantArchive(s: Store, v: nat, archive: bool, read: Variant): Result<Store, Refusal> {
    if v >= |s.variants| || s.variants[v].version != read.version then Err(VersionConflict)
    else
      var _ :- if archive && read.status == Published then CheckRetains(s, read.product, v) else Ok(());
      var row := s.variants[v].(archived := archive, status := Draft, version := read.version + 1);
      Ok(s.(variants := s.variants[v := row]))
  }

  // Product updates.

  function NewBase(i: ProductInput, p: Product): Option<int> { i.base.GetOr(p.base) }
  function NewProductPromotion(i: ProductInput, p: Product): Option<int> { i.promotion.GetOr(p.promotion) }
  function NewProductStatus(i: ProductInput, p: Product): Status { i.status.GetOr(p.status) }

  function CheckProduct(s: Store, p: nat, i: ProductInput, read: Product, f: Facts): Result<(), Refusal> {
    var base, promotion := NewBase(i, read), NewProductPromotion(i, read);
    var ids := PublicOf(s.variants, p);
    if read.status != Published then Ready(ProductBlockers(read, base, promotion, i.mediaConfirmed, s.variants, ids, f))
    else
      var _ :- Ready(MediaBlockers(read, i.mediaConfirmed, f));
      if !BasePositive(base, promotion) then Err(NotReady([NonPositivePrice]))
      else if base.None? && ids == [] then Err(RequirementsMissing)
      else Ok(())
  }

  function OpenProductUpdate(s: Store, p: nat, i: ProductInput, f: Facts): Result<Request, Refusal> {
    if i.base.None? && i.promotion.None? && i.status.None? && !i.mediaConfirmed && !i.others then Err(NoChanges)
    else if p >= |s.products| then Err(NotFound)
    else
      var read := s.products[p];
      if read.version != i.version then Err(VersionConflict)
      else if read.status == Archived then Err(ProductIsArchived)
      else if i.mediaConfirmed && (NewProductStatus(i, read) != Published || !read.needsMediaReview)
      then Err(ConfirmationNotApplicable)
      else if !f.references then Err(InvalidReference)
      else if !ProductPromotionOk(NewBase(i, read), NewProductPromotion(i, read)) then Err(InvalidPromotion)
      else
        var _ :- if NewProductStatus(i, read) == Published then CheckProduct(s, p, i, read, f) else Ok(());
        Ok(UpdateProduct(p, i, read))
  }

  function UpdatedProduct(i: ProductInput, read: Product, row: Product): Product {
    var publishing := i.status == Some(Published);
    row.(base := NewBase(i, row), promotion := NewProductPromotion(i, row), status := NewProductStatus(i, row),
         requiresPricing := row.requiresPricing && !publishing, requiresStock := row.requiresStock && !publishing,
         needsMediaReview := row.needsMediaReview && !publishing &&
           !(i.mediaConfirmed && read.status == Published && i.status.None?),
         version := row.version + 1)
  }

  function CommitProductUpdate(s: Store, p: nat, i: ProductInput, read: Product, f: Facts): Result<Store, Refusal> {
    if p >= |s.products| || s.products[p].version != i.version then Err(VersionConflict)
    else if NewProductStatus(i, read) == Published && !f.references then Err(InvalidReference)
    else
      var _ :- if NewProductStatus(i, read) == Published then CheckProduct(s, p, i, read, f) else Ok(());
      Ok(s.(products := s.products[p := UpdatedProduct(i, read, s.products[p])]))
  }

  function OpenProductArchive(s: Store, p: nat, version: nat, archive: bool): Result<Request, Refusal> {
    if p >= |s.products| then Err(NotFound)
    else if s.products[p].version != version then Err(VersionConflict)
    else if archive && s.products[p].status == Archived then Err(AlreadyArchived)
    else if !archive && s.products[p].status != Archived then Err(NotArchived)
    else Ok(ArchiveProduct(p, archive, s.products[p]))
  }

  function CommitProductArchive(s: Store, p: nat, archive: bool, read: Product): Result<Store, Refusal> {
    if p >= |s.products| || s.products[p].version != read.version then Err(VersionConflict)
    else
      var row := s.products[p].(status := if archive then Archived else Draft, version := read.version + 1);
      Ok(s.(products := s.products[p := row]))
  }

  // Steps.

  function Commit(s: Store, r: Request, f: Facts): Result<Store, Refusal> {
    match r
    case UpdateVariant(v, i, read) => CommitVariantUpdate(s, v, i, read, f)
    case ArchiveVariant(v, archive, read) => CommitVariantArchive(s, v, archive, read)
    case UpdateProduct(p, i, read) => CommitProductUpdate(s, p, i, read, f)
    case ArchiveProduct(p, archive, read) => CommitProductArchive(s, p, archive, read)
  }

  function Opened(s: Store, r: Result<Request, Refusal>): Store {
    if r.Ok? then s.(requests := s.requests + [r.value]) else s
  }

  function Written(s: Store, r: Result<Store, Refusal>): Store { if r.Ok? then r.value else s }

  /** A request may be committed at any later time; committing it again is possible but its
      version will have passed. */
  datatype Step =
    | CreateProductStep(base: Option<int>, promotion: Option<int>, needsPricing: bool, needsStock: bool,
      needsMedia: bool)
    | CreateVariantStep(product: nat, sku: nat, price: int, variantPromotion: Option<int>)
    | OpenVariantUpdateStep(variant: nat, variantInput: VariantInput, facts: Facts)
    | OpenVariantArchiveStep(variant: nat, version: nat, archive: bool)
    | OpenProductUpdateStep(product: nat, productInput: ProductInput, facts: Facts)
    | OpenProductArchiveStep(product: nat, version: nat, archive: bool)
    | CommitStep(request: nat, facts: Facts)

  function Next(s: Store, step: Step): Store {
    match step
    case CreateProductStep(base, promotion, needsPricing, needsStock, needsMedia) =>
      Written(s, CreateProduct(s, base, promotion, needsPricing, needsStock, needsMedia))
    case CreateVariantStep(product, sku, price, promotion) =>
      Written(s, CreateVariant(s, product, sku, price, promotion))
    case OpenVariantUpdateStep(v, i, f) => if Mutable(i.status) then Opened(s, OpenVariantUpdate(s, v, i, f)) else s
    case OpenVariantArchiveStep(v, version, archive) => Opened(s, OpenVariantArchive(s, v, version, archive))
    case OpenProductUpdateStep(p, i, f) => if Mutable(i.status) then Opened(s, OpenProductUpdate(s, p, i, f)) else s
    case OpenProductArchiveStep(p, version, archive) => Opened(s, OpenProductArchive(s, p, version, archive))
    case CommitStep(k, f) => if k < |s.requests| then Written(s, Commit(s, s.requests[k], f)) else s
  }

  function Run(s: Store, steps: seq<Step>): Store
    decreases |steps|
  {
    if steps == [] then s else Run(Next(s, steps[0]), steps[1..])
  }
}
