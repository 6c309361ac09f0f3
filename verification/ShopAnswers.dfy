/**
 * What each request to the shop is answered with, and when: every condition
 * written out over the rows on record, every column of what is left behind.
 */
module ShopAnswers {
  import opened Wrappers
  import opened LineTotal
  import opened ShopRules
  import opened ShopSteps
  import opened ShopRuns
  import opened ShopInvariant

  // ---- Listings ----

  /**
   * A listing is created exactly with a whole discount rule or none, and is on sale exactly if there
   * is something to sell.
   */
  lemma {:induction false} CreatedExactlyWhen(shop: Shop, p: ProductId, sellerId: UserId, price: Satang, stockQty: nat,
      floor: Option<Satang>, rule: QuantityDiscountRule)
    requires p !in shop.products
    ensures
      var r := CreateStep(shop, p, sellerId, price, stockQty, floor, rule);
      && (r.Some? <==> (rule.minQty.Some? && rule.percent.Some?) || (rule.minQty.None? && rule.percent.None?))
      && (r.Some? ==>
            && r.value == shop.(products := r.value.products)
            && r.value.products.Keys == shop.products.Keys + {p}
            && (forall q | q in shop.products :: r.value.products[q] == shop.products[q])
            && r.value.products[p] ==
                 Product(sellerId, price, stockQty, if stockQty > 0 then ACTIVE else OUT_OF_STOCK, floor, rule))
  {
  }

  /** What stops a seller's edit: not theirs, suspended, or removed. */
  predicate Editable(product: Product, sellerId: UserId) {
    product.sellerId == sellerId
    && (product.status == ACTIVE || product.status == OUT_OF_STOCK || product.status == INACTIVE)
  }

  /** The status stock decides: a listing on the shelf is ACTIVE exactly with stock, and any other status stays. */
  predicate Restatused(before: Product, after: Product) {
    if before.status == ACTIVE || before.status == OUT_OF_STOCK
    then after.status == if after.stockQty > 0 then ACTIVE else OUT_OF_STOCK
    else after.status == before.status
  }

  /**
   * An update goes through exactly on the seller's own open listing, if it leaves a whole rule or
   * none; it changes what it names.
   */
  lemma {:induction false} UpdatedExactlyWhen(shop: Shop, p: ProductId, sellerId: UserId, patch: ProductPatch)
    requires p in shop.products
    ensures
      var before := shop.products[p];
      var r := UpdateStep(shop, p, sellerId, patch);
      && (r.Some? <==>
            && Editable(before, sellerId)
            && ((patch.minQty.Set? || before.rule.minQty.Some?) <==> (patch.percent.Set? || before.rule.percent.Some?)))
      && (r.Some? ==>
            && p in r.value.products
            && r.value == shop.(products := shop.products[p := r.value.products[p]])
            && var after := r.value.products[p];
            && after.sellerId == before.sellerId
            && after.price == (if patch.price.Set? then patch.price.value else before.price)
            && after.stockQty == (if patch.stockQty.Set? then patch.stockQty.value else before.stockQty)
            && after.negotiationFloor ==
                 (if patch.negotiationFloor.Set? then Some(patch.negotiationFloor.value) else before.negotiationFloor)
            && after.rule.minQty == (if patch.minQty.Set? then Some(patch.minQty.value) else before.rule.minQty)
            && after.rule.percent == (if patch.percent.Set? then Some(patch.percent.value) else before.rule.percent)
            && Restatused(before, after))
  {
  }

  /** The seller's pause, resume and restock go through exactly on their own open listing. */
  lemma {:induction false} PausedExactlyWhen(shop: Shop, p: ProductId, sellerId: UserId, resume: bool, stockQty: nat)
    requires p in shop.products
    ensures
      var before := shop.products[p];
      var r := UpdateStatusStep(shop, p, sellerId, resume);
      && (r.Some? <==> Editable(before, sellerId))
      && (r.Some? ==>
            r.value == shop.(products := shop.products[p := before.(
              status := if !resume then INACTIVE else if before.stockQty > 0 then ACTIVE else OUT_OF_STOCK)]))
    ensures
      var before := shop.products[p];
      var r := UpdateStockStep(shop, p, sellerId, stockQty);
      && (r.Some? <==> Editable(before, sellerId))
      && (r.Some? ==>
            && p in r.value.products
            && r.value == shop.(products := shop.products[p := r.value.products[p]])
            && r.value.products[p] == before.(stockQty := stockQty, status := r.value.products[p].status)
            && Restatused(before, r.value.products[p]))
  {
  }

  /** A removal goes through exactly on the seller's own listing that is not suspended, removed already or not. */
  lemma {:induction false} RemovedExactlyWhen(shop: Shop, p: ProductId, sellerId: UserId)
    requires p in shop.products
    ensures
      var before := shop.products[p];
      var r := RemoveStep(shop, p, sellerId);
      && (r.Some? <==> before.sellerId == sellerId && before.status != SUSPENDED)
      && (r.Some? ==>
            && p in r.value.products
            && r.value == shop.(products := shop.products[p := before.(status := r.value.products[p].status)])
            && r.value.products[p].status ==
                 if exists k, i | 0 <= k < |shop.orders| && 0 <= i < |shop.orders[k].items| ::
                      shop.orders[k].status == PAID && shop.orders[k].items[i].productId == Some(p)
                 then INACTIVE else REMOVED)
  {
    ReferencedIs(shop.orders, p);
    hide Referenced;
  }

  lemma {:induction false} ReferencedIs(orders: seq<Order>, p: ProductId)
    ensures Referenced(orders, p) <==> exists k, i | 0 <= k < |orders| && 0 <= i < |orders[k].items| ::
              orders[k].status == PAID && orders[k].items[i].productId == Some(p)
  {
    if Referenced(orders, p) {
      var k :| 0 <= k < |orders| && orders[k].status != CANCELLED && Mentions(orders[k].items, p);
      var i :| 0 <= i < |orders[k].items| && orders[k].items[i].productId == Some(p);
      assert orders[k].status == PAID;
    }
    forall k, i | 0 <= k < |orders| && 0 <= i < |orders[k].items|
      ensures orders[k].status == PAID && orders[k].items[i].productId == Some(p) ==> Referenced(orders, p)
    {
      assert orders[k].items[i].productId == Some(p) ==> Mentions(orders[k].items, p);
    }
  }

  /** An admin suspends exactly what is neither suspended nor removed, and lifts exactly a suspension. */
  lemma {:induction false} ModeratedExactlyWhen(shop: Shop, p: ProductId)
    requires p in shop.products
    ensures
      var before := shop.products[p];
      var r := DeactivateStep(shop, p);
      && (r.Some? <==> before.status == ACTIVE || before.status == OUT_OF_STOCK || before.status == INACTIVE)
      && (r.Some? ==> r.value == shop.(products := shop.products[p := before.(status := SUSPENDED)]))
    ensures
      var before := shop.products[p];
      var r := ReactivateStep(shop, p);
      && (r.Some? <==> before.status == SUSPENDED)
      && (r.Some? ==>
            r.value == shop.(products := shop.products[p := before.(
              status := if before.stockQty > 0 then ACTIVE else OUT_OF_STOCK)]))
  {
  }

  // ---- The gate before the charge ----

  /**
   * The one reason a line cannot be bought: not on sale; else the buyer's own; else too few, and how
   * many there are.
   */
  lemma {:induction false} IssueIs(buyerId: UserId, item: CartItem, product: Product)
    ensures
      var issue := IssueOf(buyerId, item, product);
      && (issue == Some(CheckoutIssue(PRODUCT_UNAVAILABLE, item.productId, None, item.quantity)) <==>
            product.status != ACTIVE)
      && (issue == Some(CheckoutIssue(OWN_LISTING, item.productId, None, item.quantity)) <==>
            product.status == ACTIVE && product.sellerId == buyerId)
      && (issue == Some(CheckoutIssue(INSUFFICIENT_STOCK, item.productId, Some(product.stockQty), item.quantity)) <==>
            product.status == ACTIVE && product.sellerId != buyerId && item.quantity > product.stockQty)
      && (issue == None <==>
          product.status == ACTIVE && product.sellerId != buyerId && item.quantity <= product.stockQty)
  {
  }

  /** The list holds the reason of every line that has one, and nothing else. */
  lemma {:induction false} IssuesAreThose(buyerId: UserId, lines: seq<(CartItem, Product)>, issue: CheckoutIssue)
    ensures issue in Issues(buyerId, lines) <==>
              exists i | 0 <= i < |lines| :: IssueOf(buyerId, lines[i].0, lines[i].1) == Some(issue)
    decreases |lines|
  {
    hide IssueOf;
    if lines != [] {
      var last := |lines| - 1;
      IssuesAreThose(buyerId, lines[..last], issue);
      if i :| 0 <= i < |lines| && IssueOf(buyerId, lines[i].0, lines[i].1) == Some(issue) {
        assert i < last ==> IssueOf(buyerId, lines[..last][i].0, lines[..last][i].1) == Some(issue);
      }
      if i :| 0 <= i < last && IssueOf(buyerId, lines[..last][i].0, lines[..last][i].1) == Some(issue) {
        assert IssueOf(buyerId, lines[i].0, lines[i].1) == Some(issue);
      }
    }
  }

  // ---- Lots and offers ----

  /** A lot can be paid for exactly by its winner, while no order item points at it: one unit, at its sold price. */
  lemma {:induction false} LotIsPricedExactlyWhen(shop: Shop, buyerId: UserId, a: AuctionId)
    ensures
      var priced := PriceAuction(shop, buyerId, a);
      && (priced.Some? <==>
            && a in shop.sold && shop.sold[a].winnerId == buyerId
            && forall k, i | 0 <= k < |shop.orders| && 0 <= i < |shop.orders[k].items| ::
                 shop.orders[k].items[i].auctionId != Some(a))
      && (priced.Some? ==>
            && |priced.value| == 1
            && var line := priced.value[0];
            && line.auctionId == Some(a) && line.productId == None && line.cartItemId == None
            && line.sellerId == shop.sold[a].sellerId
            && line.quantity == 1 && line.unitPrice == line.subtotal == shop.sold[a].soldPrice)
  {
    PaidIs(shop.orders, a);
    hide LotPaid;
  }

  lemma {:induction false} PaidIs(orders: seq<Order>, a: AuctionId)
    ensures LotPaid(orders, a) <==>
              !forall k, i | 0 <= k < |orders| && 0 <= i < |orders[k].items| :: orders[k].items[i].auctionId != Some(a)
  {
    if LotPaid(orders, a) {
      var k :| 0 <= k < |orders| && HasLot(orders[k].items, a);
      var i :| 0 <= i < |orders[k].items| && orders[k].items[i].auctionId == Some(a);
    } else {
      forall k, i | 0 <= k < |orders| && 0 <= i < |orders[k].items|
        ensures orders[k].items[i].auctionId != Some(a)
      {
        assert !HasLot(orders[k].items, a);
      }
    }
  }

  /** A token is spent exactly on an accepted offer that has not expired; spending it moves its expiry to the epoch. */
  lemma {:induction false} OfferIsSpentExactlyWhen(shop: Shop, o: OfferId, now: nat)
    ensures
      var r := ConsumeStep(shop, o, now);
      && (r.Some? <==> o in shop.offers && shop.offers[o].accepted && shop.offers[o].expiresAt.Some?
                       && shop.offers[o].expiresAt.value > now)
      && (r.Some? ==>
            && r.value == shop.(offers := r.value.offers)
            && r.value.offers == shop.offers[o := shop.offers[o].(expiresAt := Some(0))])
  {
  }

  /**
   * A redeemed offer is priced exactly for its buyer, while its listing is on sale with enough left:
   * at the agreed price, with no discount.
   */
  lemma {:induction false} OfferIsPricedExactlyWhen(shop: Shop, buyerId: UserId, o: OfferId)
    requires o in shop.offers && shop.offers[o].productId in shop.products
    ensures
      var offer := shop.offers[o];
      var product := shop.products[offer.productId];
      var priced := PriceOffer(shop, buyerId, o);
      && (priced.Some? <==> offer.buyerId == buyerId && product.status == ACTIVE && offer.quantity <= product.stockQty)
      && (priced.Some? ==>
            && |priced.value| == 1
            && var line := priced.value[0];
            && line.productId == Some(offer.productId) && line.auctionId == None && line.cartItemId == None
            && line.sellerId == product.sellerId && line.quantity == offer.quantity
            && line.unitPrice == offer.amount && line.subtotal == offer.amount * offer.quantity)
  {
  }

  // ---- The charge ----

  /** The provider declines a total of 666.00 and no other; either way there is one more payment row, of the total. */
  lemma {:induction false} ChargedExactlyWhen(s: ShopSystem, id: SessionId)
    requires id in s.sessions && s.sessions[id].stage.Priced?
    ensures
      var lines := s.sessions[id].stage.lines;
      var total := SumBy(lines, Subtotals());
      var after := Next(s, Charge(id));
      && after.shop == s.shop.(payments := s.shop.payments + [Payment(id, total != 66_600, total)])
      && after.sessions == s.sessions[id := s.sessions[id].(
           stage := if total == 66_600 then Declined(lines, |s.shop.payments|) else Charged(lines, |s.shop.payments|))]
  {
    hide SumBy;
  }

  // ---- Parcels ----

  /** The four moves a parcel can make. */
  predicate ParcelMay(from: ShipmentStatus, to: ShipmentStatus) {
    || (from == SH_PROCESSING && to == SH_SHIPPED)
    || (from == SH_PROCESSING && to == SH_CANCELLED)
    || (from == SH_SHIPPED && to == SH_IN_TRANSIT)
    || (from == SH_IN_TRANSIT && to == SH_DELIVERED)
  }

  /**
   * A parcel moves exactly for its seller, from where the request saw it, by one of those moves;
   * CANCELLED closes the order.
   */
  lemma {:induction false} ParcelMovesExactlyWhen(shop: Shop, k: nat, userId: UserId, expected: ShipmentStatus,
      next: ShipmentStatus)
    ensures
      var r := ShipmentStep(shop, k, userId, expected, next);
      && (r.Some? <==>
            && k < |shop.orders| && shop.orders[k].sellerId == userId && shop.orders[k].shipment == expected
            && ParcelMay(expected, next))
      && (r.Some? ==>
            && r.value == shop.(orders := r.value.orders, products := r.value.products)
            && |r.value.orders| == |shop.orders|
            && (forall l | 0 <= l < |shop.orders| && l != k :: r.value.orders[l] == shop.orders[l])
            && r.value.orders[k] == shop.orders[k].(
                 shipment := next, shipmentEvents := shop.orders[k].shipmentEvents + [next],
                 status := if next == SH_CANCELLED then CANCELLED else shop.orders[k].status)
            && (next != SH_CANCELLED ==> r.value.products == shop.products))
  {
    hide Restock, Reopen;
  }
}
