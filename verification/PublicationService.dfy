/** The admin requests on products and variants, as transactions over their tables. */
module PublicationService {
  import opened Wrappers
  import opened Publication
  import opened PublicationProof

  lemma RowStep(variants: seq<Variant>, ids: seq<nat>, k: nat, f: Facts)
    requires k < |ids| && Rows(variants, ids)
    ensures RowBlockers(variants, ids[..k + 1], f) ==
      RowBlockers(variants, ids[..k], f) + RowBlocker(variants[ids[k]], ids[k], SkusOf(variants, ids[..k]), f)
    ensures SkusOf(variants, ids[..k + 1]) ==
      SkusOf(variants, ids[..k]) + (if variants[ids[k]].sku != 0 then {variants[ids[k]].sku} else {})
  {
    assert ids[..k + 1] == ids[..k] + [ids[k]];
    assert ids[..k + 1][..k] == ids[..k];
  }

  class AdminCatalog {
    var products: seq<Product>
    var variants: seq<Variant>
    var requests: seq<Request>

    function Tables(): Store
      reads this
    {
      Store(products, variants, requests)
    }

    ghost predicate Valid()
      reads this
    {
      Inv(Tables())
    }

    constructor ()
      ensures Valid() && Tables() == Empty
    {
      products, variants, requests := [], [], [];
    }

    /** The stock of all public variants together. */
    method CountAvailable(ids: seq<nat>, f: Facts) returns (total: int)
      ensures total == TotalAvailable(ids, f)
    {
      total := 0;
      for k := 0 to |ids|
        invariant total == TotalAvailable(ids[..k], f)
      {
        assert ids[..k + 1][..k] == ids[..k];
        total := total + AvailableOf(f, ids[k]);
      }
      assert ids[..|ids|] == ids;
    }

    /** What its own flags, prices and media say against publishing a product. */
    method OwnPublicationBlockers(p: Product, base: Option<int>, promotion: Option<int>, confirmed: bool,
      ids: seq<nat>, imaged: bool, f: Facts)
      returns (blockers: seq<Blocker>)
      requires Rows(variants, ids) && imaged == Imaged(ids, f)
      ensures blockers ==
        OwnBlockers(p, Priced(base, variants, ids), TotalAvailable(ids, f), imaged, f.unresolvedImages, confirmed,
          ids != [], BasePositive(base, promotion))
    {
      var available := CountAvailable(ids, f);
      blockers := If(p.requiresPricing && !Priced(base, variants, ids), PricingReviewRequired);
      blockers := blockers + If(p.requiresStock && available <= 0, StockReviewRequired);
      blockers := blockers + If(p.needsMediaReview && !imaged, MediaReviewRequired);
      blockers := blockers + If(f.unresolvedImages > 0, MediaReviewPending);
      blockers := blockers + If(p.needsMediaReview && !confirmed, MediaReviewConfirmationRequired);
      blockers := blockers + If(ids == [], SellableVariantMissing);
      blockers := blockers +
        If((base.Some? && base.value <= 0) || (promotion.Some? && promotion.value <= 0), NonPositivePrice);
    }

    /** Collects what keeps a product from being published: nothing, exactly if it is ready. */
    method PublicationBlockers(p: Product, id: nat, base: Option<int>, promotion: Option<int>, confirmed: bool,
      f: Facts)
      returns (blockers: seq<Blocker>)
      ensures blockers == ProductBlockers(p, base, promotion, confirmed, variants, PublicOf(variants, id), f)
      ensures blockers == [] <==> ProductReady(p, base, promotion, confirmed, variants, PublicOf(variants, id), f)
    {
      var ids := PublicOf(variants, id);
      var imaged := Imaged(ids, f);
      blockers := OwnPublicationBlockers(p, base, promotion, confirmed, ids, imaged, f);
      var rows := VariantRowBlockers(ids, f);
      blockers := blockers + rows;
      blockers := blockers + If(!imaged, ApprovedImageMissing);
      blockers := blockers + If(f.deliveryMissing, DeliveryMethodMissing);
      ReadyExactly(p, base, promotion, confirmed, variants, ids, f);
    }

    /** Goes through the public variants with the set of SKUs met so far. */
    method VariantRowBlockers(ids: seq<nat>, f: Facts) returns (blockers: seq<Blocker>)
      requires Rows(variants, ids)
      ensures blockers == RowBlockers(variants, ids, f)
    {
      blockers := [];
      var skus: set<nat> := {};
      for k := 0 to |ids|
        invariant blockers == RowBlockers(variants, ids[..k], f)
        invariant skus == SkusOf(variants, ids[..k])
      {
        RowStep(variants, ids, k, f);
        var variant := variants[ids[k]];
        var row: seq<Blocker> := [];
        if variant.sku == 0 {
          row := [SkuInvalid];
        } else if variant.sku in skus {
          row := [SkuDuplicate];
        } else {
          skus := skus + {variant.sku};
        }
        row := row + If(variant.price <= 0 || (variant.promotion.Some? && variant.promotion.value <= 0),
          NonPositivePrice);
        row := row + If(AvailableOf(f, ids[k]) <= 0, AvailableStockMissing);
        blockers := blockers + row;
      }
      assert ids[..|ids|] == ids;
    }

    /** Collects what keeps a draft variant from being published. */
    method VariantPublicationBlockers(p: Product, v: nat, sku: nat, price: int, promotion: Option<int>, f: Facts)
      returns (blockers: seq<Blocker>)
      ensures blockers == VariantBlockers(p, v, sku, price, promotion, f)
      ensures blockers == [] <==> VariantReady(p, v, sku, price, promotion, f)
    {
      VariantReadyExactly(p, v, sku, price, promotion, f);
      var available, images := AvailableOf(f, v), f.productImages + ImagesOf(f, v);
      blockers := If(p.requiresPricing && price <= 0, PricingReviewRequired);
      blockers := blockers + If(p.requiresStock && available <= 0, StockReviewRequired);
      blockers := blockers + If(p.needsMediaReview && images == 0, MediaReviewRequired);
      blockers := blockers + If(f.unresolvedImages > 0, MediaReviewPending);
      blockers := blockers + If(p.needsMediaReview, MediaReviewConfirmationRequired);
      blockers := blockers + If(sku == 0, SkuInvalid);
      blockers := blockers + If(f.skuTaken, SkuDuplicate);
      blockers := blockers + If(price <= 0 || (promotion.Some? && promotion.value <= 0), NonPositivePrice);
      blockers := blockers + If(available <= 0, AvailableStockMissing);
      blockers := blockers + If(images == 0, ApprovedImageMissing);
      blockers := blockers + If(f.deliveryMissing, DeliveryMethodMissing);
    }

    /** A published variant is only checked for its SKU and prices. */
    method ValidateVariant(v: nat, i: VariantInput, read: Variant, f: Facts) returns (r: Result<(), Refusal>)
      ensures r == CheckVariant(Tables(), v, i, read, f)
    {
      var sku, price := i.sku.GetOr(read.sku), i.price.GetOr(read.price);
      var promotion := i.promotion.GetOr(read.promotion);
      var blockers: seq<Blocker>;
      if read.status == Published {
        blockers := If(sku == 0, SkuInvalid);
        blockers := blockers + If(price <= 0 || (promotion.Some? && promotion.value <= 0), NonPositivePrice);
      } else {
        if read.product >= |products| { return Err(NotFound); }
        if products[read.product].status == Archived { return Err(ProductIsArchived); }
        blockers := VariantPublicationBlockers(products[read.product], v, sku, price, promotion, f);
      }
      return if blockers == [] then Ok(()) else Err(NotReady(blockers));
    }

    method CountRemaining(p: nat, except: nat) returns (remaining: nat)
      ensures remaining > 0 <==> Retains(variants, p, except)
    {
      remaining := 0;
      for w := 0 to |variants|
        invariant remaining > 0 <==>
          exists x: nat :: x < w && x != except && variants[x].product == p && Sellable(variants[x])
      {
        if w != except && variants[w].product == p && Sellable(variants[w]) {
          assert exists x: nat :: x < w + 1 && x != except && variants[x].product == p && Sellable(variants[x]);
          remaining := remaining + 1;
        }
      }
    }

    method EnsureRetains(p: nat, except: nat) returns (r: Result<(), Refusal>)
      ensures r == CheckRetains(Tables(), p, except)
    {
      if p >= |products| { return Err(NotFound); }
      if products[p].status != Published { return Ok(()); }
      var remaining := CountRemaining(p, except);
      if remaining == 0 { return Err(NotReady([SellableVariantMissing])); }
      return Ok(());
    }

    method ValidateProduct(p: nat, i: ProductInput, read: Product, f: Facts) returns (r: Result<(), Refusal>)
      ensures r == CheckProduct(Tables(), p, i, read, f)
    {
      var base, promotion := NewBase(i, read), NewProductPromotion(i, read);
      if read.status != Published {
        var blockers := PublicationBlockers(read, p, base, promotion, i.mediaConfirmed, f);
        return if blockers == [] then Ok(()) else Err(NotReady(blockers));
      }
      var media := MediaBlockers(read, i.mediaConfirmed, f);
      if media != [] { return Err(NotReady(media)); }
      if (base.Some? && base.value <= 0) || (promotion.Some? && promotion.value <= 0) {
        return Err(NotReady([NonPositivePrice]));
      }
      if base.Some? { return Ok(()); }
      return if PublicOf(variants, p) == [] then Err(RequirementsMissing) else Ok(());
    }

    /** The read-and-check half of a request; a refused one leaves no trace. */
    method OpenVariant(v: nat, i: VariantInput, f: Facts) returns (r: Result<Request, Refusal>)
      modifies this`requests
      ensures r == OpenVariantUpdate(old(Tables()), v, i, f) && Tables() == Opened(old(Tables()), r)
    {
      if v >= |variants| { return Err(NotFound); }
      var current := variants[v];
      if current.archived { return Err(ArchivedConflict); }
      if i.price.None? && i.promotion.None? && i.sku.None? && i.status.None? && !i.others { return Err(NoChanges); }
      if current.version != i.version { return Err(VersionConflict); }
      var price, promotion := i.price.GetOr(current.price), i.promotion.GetOr(current.promotion);
      if promotion.Some? && promotion.value > price { return Err(InvalidPromotion); }
      if i.status.GetOr(current.status) == Published {
        var ready := ValidateVariant(v, i, current, f);
        if ready.Err? { return Err(ready.error); }
      }
      requests := requests + [UpdateVariant(v, i, current)];
      return Ok(UpdateVariant(v, i, current));
    }

    /** The transaction of a variant update. */
    method UpdateVariantRow(v: nat, i: VariantInput, current: Variant, f: Facts) returns (refusal: Option<Refusal>)
      modifies this`variants
      ensures refusal ==
        match CommitVariantUpdate(old(Tables()), v, i, current, f) { case Ok(_) => None case Err(e) => Some(e) }
      ensures Tables() == Written(old(Tables()), CommitVariantUpdate(old(Tables()), v, i, current, f))
    {
      if v >= |variants| || variants[v].version != i.version { return Some(VersionConflict); }
      var target := i.status.GetOr(current.status);
      if target == Published {
        var ready := ValidateVariant(v, i, current, f);
        if ready.Err? { return Some(ready.error); }
      } else if current.status == Published {
        var retained := EnsureRetains(current.product, v);
        if retained.Err? { return Some(retained.error); }
      }
      var row := variants[v];
      var data := row.(version := row.version + 1);
      if i.price.Some? { data := data.(price := i.price.value); }
      if i.promotion.Some? { data := data.(promotion := i.promotion.value); }
      if i.sku.Some? { data := data.(sku := i.sku.value); }
      if i.status.Some? { data := data.(status := i.status.value); }
      if i.status == Some(Published) { data := data.(archived := false); }
      variants := variants[v := data];
      return None;
    }

    method ChangeVariantArchive(v: nat, archive: bool, current: Variant) returns (refusal: Option<Refusal>)
      modifies this`variants
      ensures refusal ==
        match CommitVariantArchive(old(Tables()), v, archive, current) { case Ok(_) => None case Err(e) => Some(e) }
      ensures Tables() == Written(old(Tables()), CommitVariantArchive(old(Tables()), v, archive, current))
    {
      if v >= |variants| || variants[v].version != current.version { return Some(VersionConflict); }
      if archive && current.status == Published {
        var retained := EnsureRetains(current.product, v);
        if retained.Err? { return Some(retained.error); }
      }
      variants := variants[v := variants[v].(archived := archive, status := Draft, version := variants[v].version + 1)];
      return None;
    }

    method BuildProductData(i: ProductInput, current: Product, row: Product) returns (data: Product)
      ensures data == UpdatedProduct(i, current, row)
    {
      data := row.(version := row.version + 1);
      if i.base.Some? { data := data.(base := i.base.value); }
      if i.promotion.Some? { data := data.(promotion := i.promotion.value); }
      if i.status.Some? {
        data := data.(status := i.status.value);
        if i.status.value == Published {
          data := data.(requiresPricing := false, requiresStock := false, needsMediaReview := false);
        }
      }
      if i.mediaConfirmed && current.status == Published && i.status.None? { data := data.(needsMediaReview := false); }
    }

    /** The transaction of a product update. */
    method UpdateProductRow(p: nat, i: ProductInput, current: Product, f: Facts) returns (refusal: Option<Refusal>)
      modifies this`products
      ensures refusal ==
        match CommitProductUpdate(old(Tables()), p, i, current, f) { case Ok(_) => None case Err(e) => Some(e) }
      ensures Tables() == Written(old(Tables()), CommitProductUpdate(old(Tables()), p, i, current, f))
    {
      if p >= |products| || products[p].version != i.version { return Some(VersionConflict); }
      var target := i.status.GetOr(current.status);
      if target == Published {
        if !f.references { return Some(InvalidReference); }
        var ready := ValidateProduct(p, i, current, f);
        if ready.Err? { return Some(ready.error); }
      }
      var data := BuildProductData(i, current, products[p]);
      products := products[p := data];
      return None;
    }

    method ChangeProductArchive(p: nat, archive: bool, current: Product) returns (refusal: Option<Refusal>)
      modifies this`products
      ensures refusal ==
        match CommitProductArchive(old(Tables()), p, archive, current) { case Ok(_) => None case Err(e) => Some(e) }
      ensures Tables() == Written(old(Tables()), CommitProductArchive(old(Tables()), p, archive, current))
    {
      if p >= |products| || products[p].version != current.version { return Some(VersionConflict); }
      var row := products[p].(status := if archive then Archived else Draft, version := products[p].version + 1);
      products := products[p := row];
      return None;
    }

    /** Writes a request that was opened earlier: what is public stays sellable. */
    method Write(k: nat, f: Facts) returns (refusal: Option<Refusal>)
      requires Valid() && k < |requests|
      modifies this`variants, this`products
      ensures Valid() && Tables() == Written(old(Tables()), Commit(old(Tables()), old(requests)[k], f))
      ensures refusal.None? <==> Commit(old(Tables()), old(requests)[k], f).Ok?
    {
      CommitInv(Tables(), requests[k], f);
      match requests[k]
      case UpdateVariant(v, i, current) => refusal := UpdateVariantRow(v, i, current, f);
      case ArchiveVariant(v, archive, current) => refusal := ChangeVariantArchive(v, archive, current);
      case UpdateProduct(p, i, current) => refusal := UpdateProductRow(p, i, current, f);
      case ArchiveProduct(p, archive, current) => refusal := ChangeProductArchive(p, archive, current);
    }
  }
}
