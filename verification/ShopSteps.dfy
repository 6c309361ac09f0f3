/**
 * What each shop transaction writes. A checkout is not one transaction: pricing,
 * charging and writing the orders are separate steps, and anything may happen
 * to the shop between two of them.
 */
module ShopSteps {
  import opened Wrappers
  import opened LineTotal
  import opened ShopRules

  datatype Shop = Shop(
    products: map<ProductId, Product>, cart: map<CartItemId, CartItem>, offers: map<OfferId, Offer>,
    sold: map<AuctionId, WonLot>, orders: seq<Order>, payments: seq<Payment>)

  datatype Change<T> = Keep | Set(value: T)

  function Apply<T>(c: Change<T>, current: T): T {
    if c.Set? then c.value else current
  }

  datatype ProductPatch = ProductPatch(
    price: Change<Satang>, stockQty: Change<nat>, negotiationFloor: Change<Satang>, minQty: Change<nat>,
        percent: Change<nat>)

  // ---- Listings ----

  function CreateStep(shop: Shop, p: ProductId, sellerId: UserId, price: Satang, stockQty: nat, floor: Option<Satang>,
      rule: QuantityDiscountRule): Option<Shop> {
    if p in shop.products || !RuleWhole(rule) then None
    else
      Some(shop.(products := shop.products[p :=
        Product(sellerId, price, stockQty, if stockQty > 0 then ACTIVE else OUT_OF_STOCK, floor, rule)]))
  }

  /** The owner, of a listing neither suspended nor removed. */
  predicate SellerMayChange(shop: Shop, p: ProductId, sellerId: UserId) {
    p in shop.products && shop.products[p].sellerId == sellerId
    && shop.products[p].status != SUSPENDED && shop.products[p].status != REMOVED
  }

  function PatchedRule(rule: QuantityDiscountRule, patch: ProductPatch): QuantityDiscountRule {
    QuantityDiscountRule(
      if patch.minQty.Set? then Some(patch.minQty.value) else rule.minQty,
      if patch.percent.Set? then Some(patch.percent.value) else rule.percent)
  }

  function UpdateStep(shop: Shop, p: ProductId, sellerId: UserId, patch: ProductPatch): Option<Shop> {
    if !SellerMayChange(shop, p, sellerId) then None
    else
      var existing := shop.products[p];
      var rule := PatchedRule(existing.rule, patch);
      if !RuleWhole(rule) then None
      else
        var stock: int := if patch.stockQty.Set? then patch.stockQty.value else existing.stockQty;
        Some(shop.(products := shop.products[p := existing.(
          price := Apply(patch.price, existing.price), stockQty := stock,
              status := ResolveStatus(existing.status, stock),
          negotiationFloor := if patch.negotiationFloor.Set? then Some(patch.negotiationFloor.value)
              else existing.negotiationFloor,
          rule := rule)]))
  }

  function UpdateStatusStep(shop: Shop, p: ProductId, sellerId: UserId, resume: bool): Option<Shop> {
    if !SellerMayChange(shop, p, sellerId) then None
    else
      var existing := shop.products[p];
      var next := if !resume then INACTIVE else if existing.stockQty > 0 then ACTIVE else OUT_OF_STOCK;
      Some(shop.(products := shop.products[p := existing.(status := next)]))
  }

  function UpdateStockStep(shop: Shop, p: ProductId, sellerId: UserId, stockQty: nat): Option<Shop> {
    if !SellerMayChange(shop, p, sellerId) then None
    else
      var existing := shop.products[p];
      Some(shop.(products := shop.products[p :=
          existing.(stockQty := stockQty, status := ResolveStatus(existing.status, stockQty))]))
  }

  /** Only a suspension stops a removal; a removed listing may be removed again. */
  function RemoveStep(shop: Shop, p: ProductId, sellerId: UserId): Option<Shop> {
    if p !in shop.products || shop.products[p].sellerId != sellerId || shop.products[p].status == SUSPENDED then None
    else
      Some(shop.(products := shop.products[p :=
          shop.products[p].(status := if Referenced(shop.orders, p) then INACTIVE else REMOVED)]))
  }

  function DeactivateStep(shop: Shop, p: ProductId): Option<Shop> {
    if p !in shop.products || shop.products[p].status == REMOVED || shop.products[p].status == SUSPENDED then None
    else Some(shop.(products := shop.products[p := shop.products[p].(status := SUSPENDED)]))
  }

  function ReactivateStep(shop: Shop, p: ProductId): Option<Shop> {
    if p !in shop.products || shop.products[p].status != SUSPENDED then None
    else
      Some(shop.(products := shop.products[p := shop.products[p].(
        status := if shop.products[p].stockQty > 0 then ACTIVE else OUT_OF_STOCK)]))
  }

  // ---- Pricing ----

  predicate Matches(shop: Shop, buyerId: UserId, selected: Option<set<CartItemId>>, item: CartItemId) {
    item in shop.cart && shop.cart[item].buyerId == buyerId && (selected.None? || item in selected.value)
  }

  /** What the query for this buyer's cart lines may return: all that match, each once, in its own order. */
  ghost predicate CartRows(shop: Shop, buyerId: UserId, selected: Option<set<CartItemId>>, items: seq<CartItemId>) {
    && (forall i, j | 0 <= i < j < |items| :: items[i] != items[j])
    && (forall item :: item in items <==> Matches(shop, buyerId, selected, item))
    && (forall i | 0 <= i < |items| :: items[i] in shop.cart && shop.cart[items[i]].productId in shop.products)
  }

  function WithProducts(shop: Shop, items: seq<CartItemId>): (r: seq<(CartItem, Product)>)
    requires forall i | 0 <= i < |items| :: items[i] in shop.cart && shop.cart[items[i]].productId in shop.products
    ensures |r| == |items|
    ensures forall i | 0 <= i < |items| :: r[i] == (shop.cart[items[i]], shop.products[shop.cart[items[i]].productId])
  {
    seq(|items|, i requires 0 <= i < |items| => (shop.cart[items[i]], shop.products[shop.cart[items[i]].productId]))
  }

  function CartLine(shop: Shop, item: CartItemId): Line
    requires item in shop.cart && shop.cart[item].productId in shop.products
  {
    var row := shop.cart[item];
    var product := shop.products[row.productId];
    var total := CalculateLineTotal(product.price, row.quantity, product.rule);
    Line(Some(item), Some(row.productId), None, product.sellerId, row.quantity, total.effectiveUnitPrice,
        total.subtotal)
  }

  function CartLines(shop: Shop, items: seq<CartItemId>): (lines: seq<Line>)
    requires forall i | 0 <= i < |items| :: items[i] in shop.cart && shop.cart[items[i]].productId in shop.products
    ensures |lines| == |items|
    ensures forall i | 0 <= i < |items| :: lines[i] == CartLine(shop, items[i])
  {
    seq(|items|, i requires 0 <= i < |items| => CartLine(shop, items[i]))
  }

  ghost function PriceCart(shop: Shop, buyerId: UserId, selected: Option<set<CartItemId>>,
      items: seq<CartItemId>): Option<seq<Line>>
    requires CartRows(shop, buyerId, selected, items)
  {
    if items == [] then None
    else if selected.Some? && |items| != |selected.value| then None
    else if Issues(buyerId, WithProducts(shop, items)) != [] then None
    else Some(CartLines(shop, items))
  }

  /** Some order item already points at this lot; a cancelled order still does. */
  predicate LotPaid(orders: seq<Order>, a: AuctionId) {
    exists k | 0 <= k < |orders| :: HasLot(orders[k].items, a)
  }

  predicate HasLot(items: seq<OrderItem>, a: AuctionId) {
    exists i | 0 <= i < |items| :: items[i].auctionId == Some(a)
  }

  function PriceAuction(shop: Shop, buyerId: UserId, a: AuctionId): Option<seq<Line>> {
    if a !in shop.sold || shop.sold[a].winnerId != buyerId || LotPaid(shop.orders, a) then None
    else Some([Line(None, None, Some(a), shop.sold[a].sellerId, 1, shop.sold[a].soldPrice, shop.sold[a].soldPrice)])
  }

  /** The conditional update that makes an accepted offer single-use. */
  function ConsumeStep(shop: Shop, o: OfferId, now: nat): Option<Shop> {
    if o in shop.offers && shop.offers[o].accepted && shop.offers[o].expiresAt.Some?
        && shop.offers[o].expiresAt.value > now
    then Some(shop.(offers := shop.offers[o := shop.offers[o].(expiresAt := Some(0))]))
    else None
  }

  function PriceOffer(shop: Shop, buyerId: UserId, o: OfferId): Option<seq<Line>> {
    if o !in shop.offers || shop.offers[o].buyerId != buyerId then None
    else
      var offer := shop.offers[o];
      if offer.productId !in shop.products || shop.products[offer.productId].status != ACTIVE
         || shop.products[offer.productId].stockQty < offer.quantity then None
      else
        Some([Line(None, Some(offer.productId), None, shop.products[offer.productId].sellerId, offer.quantity,
                   offer.amount, offer.amount * offer.quantity)])
  }

  // ---- Charging ----

  /** The simulated provider declines exactly this amount. */
  const DECLINE_AMOUNT: Satang := 66_600

  function ChargeOf(session: SessionId, lines: seq<Line>): Payment {
    var total := SumBy(lines, Subtotals());
    Payment(session, total != DECLINE_AMOUNT, total)
  }

  // ---- Writing the orders ----

  function OrderOf(session: SessionId, buyerId: UserId, payment: nat, group: Group): Order {
    Order(session, group.sellerId, buyerId, payment, SumBy(group.lines, Subtotals()), PAID, ItemsOf(group.lines),
          SH_PROCESSING, [SH_PROCESSING])
  }

  /** A unique index says no: this session already has an order for this seller, or a lot already has an order item. */
  predicate Clashes(orders: seq<Order>, order: Order) {
    || (exists k | 0 <= k < |orders| :: orders[k].sessionId == order.sessionId && orders[k].sellerId == order.sellerId)
    || (exists i | 0 <= i < |order.items| ::
        order.items[i].auctionId.Some? && LotPaid(orders, order.items[i].auctionId.value))
    || (exists i, j | 0 <= i < j < |order.items| ::
          order.items[i].auctionId.Some? && order.items[i].auctionId == order.items[j].auctionId)
  }

  function InsertOrders(orders: seq<Order>, session: SessionId, buyerId: UserId, payment: nat,
      groups: seq<Group>): Option<seq<Order>> {
    if groups == [] then Some(orders)
    else
      var before := InsertOrders(orders, session, buyerId, payment, groups[..|groups| - 1]);
      if before.None? then None
      else
        var order := OrderOf(session, buyerId, payment, groups[|groups| - 1]);
        if Clashes(before.value, order) then None else Some(before.value + [order])
  }

  function DecrementOne(products: map<ProductId, Product>, line: Line): Option<map<ProductId, Product>> {
    if line.productId.None? then Some(products)
    else
      var p := line.productId.value;
      if p in products && products[p].status == ACTIVE && products[p].stockQty >= line.quantity
      then Some(products[p := products[p].(stockQty := products[p].stockQty - line.quantity)])
      else None
  }

  function DecrementAll(products: map<ProductId, Product>, lines: seq<Line>): Option<map<ProductId, Product>> {
    if lines == [] then Some(products)
    else
      var before := DecrementAll(products, lines[..|lines| - 1]);
      if before.None? then None else DecrementOne(before.value, lines[|lines| - 1])
  }

  function ProductIds(lines: seq<Line>): set<ProductId> {
    set i | 0 <= i < |lines| && lines[i].productId.Some? :: lines[i].productId.value
  }

  function MarkSoldOut(products: map<ProductId, Product>, ids: set<ProductId>): map<ProductId, Product> {
    map p | p in products ::
      if p in ids && products[p].stockQty == 0 && products[p].status == ACTIVE
      then products[p].(status := OUT_OF_STOCK) else products[p]
  }

  function CartIds(lines: seq<Line>): set<CartItemId> {
    set i | 0 <= i < |lines| && lines[i].cartItemId.Some? :: lines[i].cartItemId.value
  }

  datatype WriteError = UniqueViolated | StockLost

  /** All the orders of a session, the stock they take and the cart lines they clear, or nothing. */
  function WriteOrdersStep(shop: Shop, session: SessionId, buyerId: UserId, payment: nat,
      lines: seq<Line>): Result<Shop, WriteError> {
    var orders := InsertOrders(shop.orders, session, buyerId, payment, GroupBySeller(lines));
    if orders.None? then Err(UniqueViolated)
    else
      var products := DecrementAll(shop.products, lines);
      if products.None? then Err(StockLost)
      else
        Ok(shop.(orders := orders.value, products := MarkSoldOut(products.value, ProductIds(lines)),
                 cart := shop.cart - CartIds(lines)))
  }

  // ---- Shipment ----

  function RestockOne(products: map<ProductId, Product>, item: OrderItem): map<ProductId, Product> {
    if item.productId.Some? && item.productId.value in products
    then
      var p := item.productId.value;
      products[p := products[p].(stockQty := products[p].stockQty + item.quantity)]
    else products
  }

  function Restock(products: map<ProductId, Product>, items: seq<OrderItem>): map<ProductId, Product> {
    if items == [] then products
    else RestockOne(Restock(products, items[..|items| - 1]), items[|items| - 1])
  }

  function ItemProducts(items: seq<OrderItem>): set<ProductId> {
    set i | 0 <= i < |items| && items[i].productId.Some? :: items[i].productId.value
  }

  /** Only a sold-out listing comes back. */
  function Reopen(products: map<ProductId, Product>, ids: set<ProductId>): map<ProductId, Product> {
    map p | p in products ::
      if p in ids && products[p].status == OUT_OF_STOCK && products[p].stockQty > 0
      then products[p].(status := ACTIVE) else products[p]
  }

  /** `expected` is the status the seller's request was judged against, read at some earlier time. */
  function ShipmentStep(shop: Shop, k: nat, userId: UserId, expected: ShipmentStatus,
      next: ShipmentStatus): Option<Shop> {
    if k >= |shop.orders| || shop.orders[k].sellerId != userId || !CanTransition(expected, next)
       || shop.orders[k].shipment != expected then None
    else
      var order := shop.orders[k];
      var moved := order.(shipment := next, shipmentEvents := order.shipmentEvents + [next],
                          status := if next == SH_CANCELLED then CANCELLED else order.status);
      if next == SH_CANCELLED
      then
        Some(shop.(orders := shop.orders[k := moved],
                   products := Reopen(Restock(shop.products, order.items), ItemProducts(order.items))))
      else Some(shop.(orders := shop.orders[k := moved]))
  }
}
