/** What every shop transaction keeps. */
module ShopInvariant {
  import opened Wrappers
  import opened LineTotal
  import opened ShopRules
  import opened ShopSteps
  import opened ShopRuns

  // ---- The shelf ----

  /** What holds of a row whatever races with whatever. */
  ghost predicate RowOk(product: Product) {
    product.stockQty >= 0 && RuleWhole(product.rule)
  }

  ghost predicate RowsOk(products: map<ProductId, Product>) {
    forall p | p in products :: RowOk(products[p])
  }

  ghost predicate ProductOk(product: Product) {
    && RowOk(product)
    && (product.status == ACTIVE ==> product.stockQty > 0)
    && (product.status == OUT_OF_STOCK ==> product.stockQty == 0)
  }

  ghost predicate Shelf(products: map<ProductId, Product>, orders: seq<Order>) {
    forall p | p in products :: ProductOk(products[p]) && (products[p].status == REMOVED ==> UnitsOut(orders, p) == 0)
  }

  /** An edit under way read a sound row, which is still there, with any discount rule it had. */
  ghost predicate EditOk(products: map<ProductId, Product>, edit: OpenEdit) {
    && Edits(edit.action) && !TurnedDown(edit.read, edit.action) && RowOk(edit.read)
    && (edit.referenced.None? ==> edit.action.Remove?)
    && var p := ListedProduct(edit.action);
    && p in products && (edit.read.rule.minQty.Some? ==> products[p].rule.minQty.Some?)
  }

  ghost predicate EditsOk(s: ShopSystem) {
    forall e | e in s.edits :: EditOk(s.shop.products, s.edits[e])
  }

  // ---- Orders ----

  /** The status a parcel's own log ends in; None when a step was skipped. */
  function ReadParcel(events: seq<ShipmentStatus>): Option<ShipmentStatus> {
    if events == [] then None
    else
      var last := |events| - 1;
      if last == 0 then (if events[0] == SH_PROCESSING then Some(SH_PROCESSING) else None)
      else
        var before := ReadParcel(events[..last]);
        if before.Some? && CanTransition(before.value, events[last]) then Some(events[last]) else None
  }

  ghost predicate ItemOk(shop: Shop, sellerId: UserId, buyerId: UserId, item: OrderItem) {
    && item.quantity >= 1
    && (item.productId.Some? <==> item.auctionId.None?)
    && (item.productId.Some? ==>
        item.productId.value in shop.products && shop.products[item.productId.value].sellerId == sellerId)
    && (item.auctionId.Some? ==>
          && item.auctionId.value in shop.sold
          && shop.sold[item.auctionId.value] == WonLot(sellerId, buyerId, item.unitPrice)
          && item.quantity == 1)
  }

  ghost predicate OrderOk(shop: Shop, order: Order) {
    && (order.status == CANCELLED <==> order.shipment == SH_CANCELLED)
    && ReadParcel(order.shipmentEvents) == Some(order.shipment)
    && (forall i | 0 <= i < |order.items| :: ItemOk(shop, order.sellerId, order.buyerId, order.items[i]))
    && order.subtotal == ItemsValue(order.items)
  }

  ghost predicate LotAt(orders: seq<Order>, k: nat, i: nat, a: AuctionId) {
    k < |orders| && i < |orders[k].items| && orders[k].items[i].auctionId == Some(a)
  }

  /** A lot is in at most one order item. */
  ghost predicate LotsOnce(orders: seq<Order>) {
    forall a, k, i, l, j :: LotAt(orders, k, i, a) && LotAt(orders, l, j, a) ==> k == l && i == j
  }

  ghost predicate PaymentsOnce(payments: seq<Payment>) {
    forall i, j | 0 <= i < j < |payments| :: payments[i].sessionId != payments[j].sessionId
  }

  // ---- Sessions ----

  ghost predicate LineOk(shop: Shop, buyerId: UserId, line: Line) {
    && line.quantity >= 1
    && line.subtotal == line.unitPrice * line.quantity
    && (line.productId.Some? <==> line.auctionId.None?)
    && (line.productId.Some? ==>
        line.productId.value in shop.products && shop.products[line.productId.value].sellerId == line.sellerId)
    && (line.auctionId.Some? ==>
          && line.auctionId.value in shop.sold
          && shop.sold[line.auctionId.value] == WonLot(line.sellerId, buyerId, line.unitPrice)
          && line.quantity == 1 && line.cartItemId.None?)
  }

  /** A session pays for listings, or for one lot alone. */
  ghost predicate OneKind(lines: seq<Line>) {
    |lines| == 1 || forall i | 0 <= i < |lines| :: lines[i].auctionId.None?
  }

  ghost predicate LinesOk(shop: Shop, session: Session, lines: seq<Line>) {
    && OneKind(lines)
    && (forall i | 0 <= i < |lines| :: LineOk(shop, session.buyerId, lines[i]))
    && (session.offer.Some? ==>
          && session.offer.value in shop.offers
          && var offer := shop.offers[session.offer.value];
          && |lines| == 1 && lines[0].unitPrice == offer.amount && lines[0].quantity == offer.quantity
          && lines[0].productId == Some(offer.productId) && offer.buyerId == session.buyerId && offer.accepted)
  }

  ghost predicate NoOrders(shop: Shop, id: SessionId) {
    forall k | 0 <= k < |shop.orders| :: shop.orders[k].sessionId != id
  }

  ghost predicate NoPayment(shop: Shop, id: SessionId) {
    forall k | 0 <= k < |shop.payments| :: shop.payments[k].sessionId != id
  }

  ghost predicate PaidBy(shop: Shop, id: SessionId, lines: seq<Line>, payment: nat, succeeded: bool) {
    payment < |shop.payments| && shop.payments[payment] == Payment(id, succeeded, SumBy(lines, Subtotals()))
  }

  /** The columns of an order that no later step writes. */
  ghost predicate SameReceipt(a: Order, b: Order) {
    && a.sessionId == b.sessionId && a.sellerId == b.sellerId && a.buyerId == b.buyerId
    && a.payment == b.payment && a.subtotal == b.subtotal && a.items == b.items
  }

  /** The orders of a session are one per seller group of its lines, side by side, and there is no other. */
  ghost predicate OrderedAs(shop: Shop, id: SessionId, buyerId: UserId, lines: seq<Line>, payment: nat, first: nat) {
    var groups := GroupBySeller(lines);
    && first + |groups| <= |shop.orders|
    && (forall g | 0 <= g < |groups| :: SameReceipt(shop.orders[first + g], OrderOf(id, buyerId, payment, groups[g])))
    && (forall k | 0 <= k < |shop.orders| && shop.orders[k].sessionId == id :: first <= k < first + |groups|)
  }

  ghost predicate OfferSpent(shop: Shop, offer: Option<OfferId>) {
    offer.Some? ==>
        offer.value in shop.offers && shop.offers[offer.value].expiresAt == Some(0) && shop.offers[offer.value].accepted
  }

  ghost predicate SessionOk(shop: Shop, id: SessionId, session: Session) {
    && OfferSpent(shop, session.offer)
    && match session.stage
       case Redeemed => session.offer.Some? && NoOrders(shop, id) && NoPayment(shop, id)
       case Priced(lines) => LinesOk(shop, session, lines) && NoOrders(shop, id) && NoPayment(shop, id)
       case Charged(lines, payment) => LinesOk(shop, session, lines) && PaidBy(shop, id, lines, payment, true)
           && NoOrders(shop, id)
       case Ordered(lines, payment, first) =>
         LinesOk(shop, session, lines) && PaidBy(shop, id, lines, payment, true)
         && OrderedAs(shop, id, session.buyerId, lines, payment, first)
       case Refused => NoOrders(shop, id) && NoPayment(shop, id)
       case Declined(lines, payment) => PaidBy(shop, id, lines, payment, false) && NoOrders(shop, id)
       case LostAfterCharge(lines, payment) => PaidBy(shop, id, lines, payment, true) && NoOrders(shop, id)
  }

  /** No two sessions redeemed the same offer. */
  ghost predicate OffersApart(sessions: map<SessionId, Session>) {
    forall x, y | x in sessions && y in sessions && x != y && sessions[x].offer.Some? ::
        sessions[x].offer != sessions[y].offer
  }

  ghost predicate Known(s: ShopSystem) {
    && (forall k | 0 <= k < |s.shop.orders| :: s.shop.orders[k].sessionId in s.sessions)
    && (forall k | 0 <= k < |s.shop.payments| :: s.shop.payments[k].sessionId in s.sessions)
  }

  ghost predicate Baskets(shop: Shop) {
    && (forall c | c in shop.cart :: shop.cart[c].quantity >= 1 && shop.cart[c].productId in shop.products)
    && (forall o | o in shop.offers :: shop.offers[o].quantity >= 1 && shop.offers[o].productId in shop.products)
  }

  ghost predicate OrdersOk(shop: Shop) {
    forall k | 0 <= k < |shop.orders| :: OrderOk(shop, shop.orders[k])
  }

  /** What every run keeps: rows, orders, payments, sessions and edits under way. */
  ghost predicate Books(s: ShopSystem) {
    && RowsOk(s.shop.products)
    && EditsOk(s)
    && OrdersOk(s.shop)
    && LotsOnce(s.shop.orders)
    && PaymentsOnce(s.shop.payments)
    && Baskets(s.shop)
    && Known(s)
    && (forall x | x in s.sessions :: SessionOk(s.shop, x, s.sessions[x]))
    && OffersApart(s.sessions)
  }

  /** And with the shelf in order too. */
  ghost predicate Inv(s: ShopSystem) {
    Books(s) && Shelf(s.shop.products, s.shop.orders)
  }

  // ---- How the shop may change under a session ----

  ghost predicate SameOffer(a: Offer, b: Offer) {
    b == a || (b == a.(expiresAt := Some(0)))
  }

  /** No listing disappears, changes hands or has its discount rule unset. */
  ghost predicate RowsStay(before: map<ProductId, Product>, after: map<ProductId, Product>) {
    forall p | p in before ::
      && p in after && after[p].sellerId == before[p].sellerId
      && (before[p].rule.minQty.Some? ==> after[p].rule.minQty.Some?)
  }

  /** Rows are only added, and what a receipt says stays; `except` are the sessions the step itself writes for. */
  ghost predicate Grows(before: Shop, after: Shop, except: set<SessionId>) {
    && RowsStay(before.products, after.products)
    && Extends(before.sold, after.sold)
    && (forall o | o in before.offers :: o in after.offers && SameOffer(before.offers[o], after.offers[o]))
    && before.payments <= after.payments
    && (forall k | |before.payments| <= k < |after.payments| :: after.payments[k].sessionId in except)
    && |before.orders| <= |after.orders|
    && (forall k | 0 <= k < |before.orders| ::
          SameReceipt(before.orders[k], after.orders[k])
          && before.orders[k].shipmentEvents <= after.orders[k].shipmentEvents
          && (before.orders[k].status == CANCELLED ==> after.orders[k] == before.orders[k]))
    && (forall k | |before.orders| <= k < |after.orders| :: after.orders[k].sessionId in except)
  }

  lemma {:induction false} LinesSurvive(before: Shop, after: Shop, except: set<SessionId>, session: Session,
      lines: seq<Line>)
    requires Grows(before, after, except) && LinesOk(before, session, lines)
    ensures LinesOk(after, session, lines)
  {
    hide SameReceipt;
    forall i | 0 <= i < |lines|
      ensures LineOk(after, session.buyerId, lines[i])
    {
      assert LineOk(before, session.buyerId, lines[i]);
    }
  }

  lemma {:induction false} RecordsSurvive(before: Shop, after: Shop, except: set<SessionId>, id: SessionId)
    requires Grows(before, after, except) && id !in except
    ensures NoOrders(before, id) ==> NoOrders(after, id)
    ensures NoPayment(before, id) ==> NoPayment(after, id)
    ensures forall lines, payment, succeeded ::
        PaidBy(before, id, lines, payment, succeeded) ==> PaidBy(after, id, lines, payment, succeeded)
  {
    hide SumBy, SameOffer, Extends;
    if NoOrders(before, id) {
      forall k | 0 <= k < |after.orders|
        ensures after.orders[k].sessionId != id
      {
        if k < |before.orders| { assert SameReceipt(before.orders[k], after.orders[k]); }
      }
    }
    if NoPayment(before, id) {
      forall k | 0 <= k < |after.payments|
        ensures after.payments[k].sessionId != id
      {
        if k < |before.payments| { assert before.payments[k] == after.payments[k]; }
      }
    }
  }

  lemma {:induction false} OrderedSurvives(before: Shop, after: Shop, except: set<SessionId>, id: SessionId,
      buyerId: UserId, lines: seq<Line>, payment: nat, first: nat)
    requires Grows(before, after, except) && id !in except && OrderedAs(before, id, buyerId, lines, payment, first)
    ensures OrderedAs(after, id, buyerId, lines, payment, first)
  {
    hide GroupBySeller, OrderOf, SameOffer, Extends;
    var groups := GroupBySeller(lines);
    forall g | 0 <= g < |groups|
      ensures SameReceipt(after.orders[first + g], OrderOf(id, buyerId, payment, groups[g]))
    {
      assert SameReceipt(before.orders[first + g], after.orders[first + g]);
      assert SameReceipt(before.orders[first + g], OrderOf(id, buyerId, payment, groups[g]));
    }
    forall k | 0 <= k < |after.orders| && after.orders[k].sessionId == id
      ensures first <= k < first + |groups|
    {
      assert k < |before.orders| ==> SameReceipt(before.orders[k], after.orders[k]);
    }
  }

  lemma {:induction false} SessionSurvives(before: Shop, after: Shop, except: set<SessionId>, id: SessionId,
      session: Session)
    requires Grows(before, after, except) && id !in except && SessionOk(before, id, session)
    ensures SessionOk(after, id, session)
  {
    OfferStaysSpent(before, after, except, session.offer);
    hide Grows, LinesOk, NoOrders, NoPayment, PaidBy, OrderedAs, OfferSpent;
    RecordsSurvive(before, after, except, id);
    match session.stage {
      case Priced(lines) => LinesSurvive(before, after, except, session, lines);
      case Charged(lines, payment) => LinesSurvive(before, after, except, session, lines);
      case Ordered(lines, payment, first) =>
        LinesSurvive(before, after, except, session, lines);
        OrderedSurvives(before, after, except, id, session.buyerId, lines, payment, first);
      case _ =>
    }
  }

  lemma {:induction false} OfferStaysSpent(before: Shop, after: Shop, except: set<SessionId>, offer: Option<OfferId>)
    requires Grows(before, after, except) && OfferSpent(before, offer)
    ensures OfferSpent(after, offer)
  {
    hide SameReceipt, Extends;
  }

  lemma {:induction false} SessionsSurvive(s: ShopSystem, after: Shop, except: set<SessionId>)
    requires Books(s) && Grows(s.shop, after, except)
    ensures forall x | x in s.sessions && x !in except :: SessionOk(after, x, s.sessions[x])
  {
    hide Grows, SessionOk, RowsOk, EditsOk, OrdersOk, LotsOnce, PaymentsOnce, Baskets, Known, OffersApart;
    forall x | x in s.sessions && x !in except
      ensures SessionOk(after, x, s.sessions[x])
    {
      SessionSurvives(s.shop, after, except, x, s.sessions[x]);
    }
  }

  lemma {:induction false} OrdersStayOk(before: Shop, after: Shop)
    requires Grows(before, after, {}) && OrdersOk(before) && after.orders == before.orders
    ensures OrdersOk(after)
  {
    hide SameReceipt, ReadParcel, ItemsValue;
    forall k | 0 <= k < |after.orders|
      ensures OrderOk(after, after.orders[k])
    {
      assert OrderOk(before, before.orders[k]);
      forall i | 0 <= i < |after.orders[k].items|
        ensures ItemOk(after, after.orders[k].sellerId, after.orders[k].buyerId, after.orders[k].items[i])
      {
        assert ItemOk(before, after.orders[k].sellerId, after.orders[k].buyerId, after.orders[k].items[i]);
      }
    }
  }

  // ---- Edits under way ----

  lemma {:induction false} EditsSurvive(s: ShopSystem, after: Shop)
    requires EditsOk(s) && RowsStay(s.shop.products, after.products)
    ensures forall e | e in s.edits :: EditOk(after.products, s.edits[e])
  {
    hide Edits, TurnedDown, ListedProduct, RowOk;
    forall e | e in s.edits
      ensures EditOk(after.products, s.edits[e])
    {
      assert EditOk(s.shop.products, s.edits[e]);
    }
  }

  // ---- Listings ----

  /** A step that writes product rows and nothing else. */
  lemma {:induction false} ProductsOnly(s: ShopSystem, after: Shop)
    requires Books(s) && after == s.shop.(products := after.products)
    requires RowsStay(s.shop.products, after.products) && RowsOk(after.products)
    ensures Books(s.(shop := after)) && Grows(s.shop, after, {})
  {
    assert Grows(s.shop, after, {}) by { hide RowsStay; }
    BasketsStay(s.shop, after);
    hide Grows, SessionOk, OrdersOk, LotsOnce, PaymentsOnce, OffersApart, RowsOk, RowsStay, EditOk, Baskets;
    SessionsSurvive(s, after, {});
    OrdersStayOk(s.shop, after);
    EditsSurvive(s, after);
  }

  lemma {:induction false} BasketsStay(before: Shop, after: Shop)
    requires after == before.(products := after.products) && RowsStay(before.products, after.products)
        && Baskets(before)
    ensures Baskets(after)
  {
  }

  lemma {:induction false} OneProduct(shop: Shop, p: ProductId, product: Product)
    requires Shelf(shop.products, shop.orders)
    requires ProductOk(product) && (product.status == REMOVED ==> UnitsOut(shop.orders, p) == 0)
    ensures Shelf(shop.products[p := product], shop.orders)
  {
    hide UnitsOut, ProductOk;
  }

  lemma {:induction false} CreateKeeps(s: ShopSystem, action: Action)
    requires Books(s) && action.Create?
    ensures Books(Next(s, action)) && Grows(s.shop, Next(s, action).shop, {})
    ensures Shelf(s.shop.products, s.shop.orders) ==> Shelf(Next(s, action).shop.products, Next(s, action).shop.orders)
  {
    var Create(p, sellerId, price, stockQty, floor, rule) := action;
    var r := CreateStep(s.shop, p, sellerId, price, stockQty, floor, rule);
    if r.Some? {
      var row := r.value.products[p];
      assert r.value == s.shop.(products := s.shop.products[p := row]) && ProductOk(row) && row.status != REMOVED;
      assert RowsStay(s.shop.products, r.value.products) && RowsOk(r.value.products);
      hide Books, CreateStep, UnitsOut, ProductOk, RowsOk, RowsStay, Grows;
      ProductsOnly(s, r.value);
      if Shelf(s.shop.products, s.shop.orders) { OneProduct(s.shop, p, row); }
    } else {
      NothingGrows(s.shop);
    }
  }

  lemma {:induction false} NothingGrows(shop: Shop)
    ensures Grows(shop, shop, {})
  {
  }

  /** A patched rule is whole on the later row too: a rule once set is never unset. */
  lemma {:induction false} RuleStaysWhole(read: QuantityDiscountRule, now: QuantityDiscountRule, minQty: Change<nat>,
      percent: Change<nat>)
    requires RuleWhole(read) && RuleWhole(now) && (read.minQty.Some? ==> now.minQty.Some?)
    requires RuleWhole(QuantityDiscountRule(Changed(minQty, read.minQty), Changed(percent, read.percent)))
    ensures RuleWhole(QuantityDiscountRule(Changed(minQty, now.minQty), Changed(percent, now.percent)))
  {
  }

  /** Whatever an edit was judged on, the row it lands on stays sound, with its seller and its rule. */
  lemma {:induction false} LandedRowOk(read: Product, referenced: bool, action: Action, now: Product)
    requires Edits(action) && !TurnedDown(read, action) && RowOk(read) && RowOk(now)
    requires read.rule.minQty.Some? ==> now.rule.minQty.Some?
    ensures
      var landed := Land(now, WriteOf(read, referenced, action));
      && RowOk(landed) && landed.sellerId == now.sellerId
      && (now.rule.minQty.Some? ==> landed.rule.minQty.Some?)
  {
    if action.Update? { RuleStaysWhole(read.rule, now.rule, action.patch.minQty, action.patch.percent); }
  }

  lemma {:induction false} OneRowStays(products: map<ProductId, Product>, p: ProductId, landed: Product)
    requires RowsOk(products) && p in products && RowOk(landed) && landed.sellerId == products[p].sellerId
    requires products[p].rule.minQty.Some? ==> landed.rule.minQty.Some?
    ensures RowsOk(products[p := landed]) && RowsStay(products, products[p := landed])
  {
    hide RowOk;
  }

  lemma {:induction false} LandKeeps(s: ShopSystem, read: Product, referenced: bool, action: Action)
    requires Books(s) && EditOk(s.shop.products, OpenEdit(action, read, Some(referenced)))
    ensures
      var after := Landed(s.shop, ListedProduct(action), WriteOf(read, referenced, action));
      Books(s.(shop := after)) && Grows(s.shop, after, {})
  {
    var p, w := ListedProduct(action), WriteOf(read, referenced, action);
    var now := s.shop.products[p];
    assert RowOk(now);
    LandedRowOk(read, referenced, action, now);
    hide Books, Land, WriteOf, RowOk, RowsStay, TurnedDown, Grows;
    OneRowStays(s.shop.products, p, Land(now, w)) by { RowsInBooks(s); }
    ProductsOnly(s, Landed(s.shop, p, w));
  }

  lemma {:induction false} RowsInBooks(s: ShopSystem)
    requires Books(s)
    ensures RowsOk(s.shop.products)
  {
  }

  /** With nothing between its halves, an edit is the write it was judged to be, on the row it read. */
  lemma {:induction false} AtOnceIsTheStep(s: ShopSystem, action: Action)
    requires Edits(action)
    ensures
      var p := ListedProduct(action);
      Next(s, action) ==
        if p in s.shop.products && !TurnedDown(s.shop.products[p], action)
        then s.(shop := Landed(s.shop, p, WriteOf(s.shop.products[p], Referenced(s.shop.orders, p), action)))
        else s
  {
    hide Referenced, RuleWhole;
    match action {
      case Update(_, _, _) =>
      case UpdateStatus(_, _, _) =>
      case UpdateStock(_, _, _) =>
      case Remove(_, _) =>
      case Deactivate(_) =>
      case Reactivate(_) =>
    }
  }

  lemma {:induction false} ReadIsOk(s: ShopSystem, action: Action, referenced: Option<bool>)
    requires Books(s) && Edits(action) && ListedProduct(action) in s.shop.products
    requires !TurnedDown(s.shop.products[ListedProduct(action)], action) && (referenced.None? ==> action.Remove?)
    ensures EditOk(s.shop.products, OpenEdit(action, s.shop.products[ListedProduct(action)], referenced))
  {
    RowsInBooks(s);
    hide Books, TurnedDown, RuleWhole;
  }

  /** An edit in one step. */
  lemma {:induction false} EditKeeps(s: ShopSystem, action: Action)
    requires Books(s) && Edits(action)
    ensures Books(Next(s, action)) && Grows(s.shop, Next(s, action).shop, {})
  {
    AtOnceIsTheStep(s, action);
    NothingGrows(s.shop);
    hide Books, Next, Grows, TurnedDown, WriteOf, Landed, Referenced, EditOk;
    var p := ListedProduct(action);
    if p in s.shop.products && !TurnedDown(s.shop.products[p], action) {
      ReadIsOk(s, action, Some(Referenced(s.shop.orders, p)));
      LandKeeps(s, s.shop.products[p], Referenced(s.shop.orders, p), action);
    }
  }

  lemma {:induction false} EditsOnly(s: ShopSystem, edits: map<EditId, OpenEdit>)
    requires Books(s) && forall e | e in edits :: EditOk(s.shop.products, edits[e])
    ensures Books(s.(edits := edits))
  {
    hide EditOk, RowsOk, OrdersOk, LotsOnce, PaymentsOnce, Baskets, SessionOk, OffersApart;
  }

  /** An edit in halves: it is judged, */
  lemma {:induction false} JudgingKeeps(s: ShopSystem, edit: EditId, action: Action)
    requires Books(s)
    ensures Books(Next(s, JudgeEdit(edit, action))) && Next(s, JudgeEdit(edit, action)).shop == s.shop
  {
    EditsInBooks(s);
    hide Books, TurnedDown, EditOk;
    var after := Next(s, JudgeEdit(edit, action));
    if after != s {
      ReadIsOk(s, action, if action.Remove? then None else Some(false));
      EditsOnly(s, after.edits);
    }
  }

  /** a removal is counted, */
  lemma {:induction false} CountingKeeps(s: ShopSystem, edit: EditId)
    requires Books(s)
    ensures Books(Next(s, CountReferences(edit))) && Next(s, CountReferences(edit)).shop == s.shop
  {
    EditsInBooks(s);
    hide Books, Referenced, EditOk;
    var after := Next(s, CountReferences(edit));
    if after != s {
      CountedIsOk(s.shop.products, s.edits[edit], Referenced(s.shop.orders, ListedProduct(s.edits[edit].action)));
      EditsOnly(s, after.edits);
    }
  }

  /** and it is written. */
  lemma {:induction false} WritingKeeps(s: ShopSystem, edit: EditId)
    requires Books(s)
    ensures Books(Next(s, WriteEdit(edit))) && Grows(s.shop, Next(s, WriteEdit(edit)).shop, {})
  {
    NothingGrows(s.shop);
    EditsInBooks(s);
    hide Books, Grows, WriteOf, Landed, EditOk;
    if Ready(s, edit) {
      var e := s.edits[edit];
      assert e == OpenEdit(e.action, e.read, Some(e.referenced.value));
      LandKeeps(s, e.read, e.referenced.value, e.action);
      var landed := s.(shop := Landed(s.shop, ListedProduct(e.action), OpenWrite(s, edit)));
      EditsInBooks(landed);
      EditsOnly(landed, s.edits - {edit});
    }
  }

  lemma {:induction false} HalvesKeep(s: ShopSystem, action: Action)
    requires Books(s) && (action.JudgeEdit? || action.CountReferences? || action.WriteEdit?)
    ensures Books(Next(s, action)) && Grows(s.shop, Next(s, action).shop, {})
  {
    NothingGrows(s.shop);
    hide Books, Grows, Next;
    match action {
      case JudgeEdit(edit, a) => JudgingKeeps(s, edit, a);
      case CountReferences(edit) => CountingKeeps(s, edit);
      case WriteEdit(edit) => WritingKeeps(s, edit);
    }
  }

  lemma {:induction false} EditsInBooks(s: ShopSystem)
    requires Books(s)
    ensures forall e | e in s.edits :: EditOk(s.shop.products, s.edits[e])
  {
    hide EditOk;
  }

  lemma {:induction false} CountedIsOk(products: map<ProductId, Product>, edit: OpenEdit, referenced: bool)
    requires EditOk(products, edit)
    ensures EditOk(products, edit.(referenced := Some(referenced)))
  {
    hide RowOk, TurnedDown;
  }

  lemma {:induction false} PositiveOrders(shop: Shop)
    requires OrdersOk(shop)
    ensures forall k | 0 <= k < |shop.orders| :: PositiveItems(shop.orders[k].items)
  {
    hide ReadParcel, ItemsValue;
    forall k | 0 <= k < |shop.orders|
      ensures PositiveItems(shop.orders[k].items)
    {
      assert OrderOk(shop, shop.orders[k]);
      forall i | 0 <= i < |shop.orders[k].items|
        ensures shop.orders[k].items[i].quantity >= 1
      {
        assert ItemOk(shop, shop.orders[k].sellerId, shop.orders[k].buyerId, shop.orders[k].items[i]);
      }
    }
  }

  // ---- Units between the shelf and the orders ----

  /** One listing across a step that moves units between the shelf and the orders; a deliberate status stays. */
  ghost predicate UnitsMoved(before: Product, after: Product, unitsBefore: int, unitsAfter: int) {
    && after.sellerId == before.sellerId && after.rule == before.rule
    && after.stockQty + unitsAfter == before.stockQty + unitsBefore
    && (before.stockQty >= 0 ==> after.stockQty >= 0)
    && (Sellable(after.status) <==> Sellable(before.status))
    && (!Sellable(before.status) ==> after.status == before.status)
    && (ProductOk(before) ==> ProductOk(after))
    && (before.status == REMOVED && unitsBefore == 0 ==> unitsAfter == 0)
  }

  ghost predicate AllMoved(before: Shop, after: Shop) {
    && after.products.Keys == before.products.Keys
    && forall p | p in before.products ::
         UnitsMoved(before.products[p], after.products[p], UnitsOut(before.orders, p), UnitsOut(after.orders, p))
  }

  lemma {:induction false} MovedRows(before: Shop, after: Shop)
    requires AllMoved(before, after)
    ensures RowsOk(before.products) ==> RowsOk(after.products)
    ensures RowsStay(before.products, after.products)
    ensures Shelf(before.products, before.orders) ==> Shelf(after.products, after.orders)
  {
    hide UnitsOut;
    forall p | p in after.products
      ensures UnitsMoved(before.products[p], after.products[p], UnitsOut(before.orders, p), UnitsOut(after.orders, p))
    {
    }
  }

  // ---- Small environment steps ----

  lemma {:induction false} CartKeeps(s: ShopSystem, after: Shop)
    requires Books(s) && after == s.shop.(cart := after.cart)
    requires forall c | c in after.cart :: after.cart[c].quantity >= 1 && after.cart[c].productId in s.shop.products
    ensures Books(s.(shop := after)) && Grows(s.shop, after, {})
  {
    assert Grows(s.shop, after, {});
    hide Grows, SessionOk, RowsOk, OrdersOk, LotsOnce, PaymentsOnce, OffersApart;
    SessionsSurvive(s, after, {});
    OrdersStayOk(s.shop, after);
  }

  lemma {:induction false} OffersKeep(s: ShopSystem, after: Shop)
    requires Books(s) && after == s.shop.(offers := after.offers)
    requires forall o | o in s.shop.offers :: o in after.offers && SameOffer(s.shop.offers[o], after.offers[o])
    requires forall o | o in after.offers ::
        after.offers[o].quantity >= 1 && after.offers[o].productId in s.shop.products
    ensures Books(s.(shop := after)) && Grows(s.shop, after, {})
  {
    assert Grows(s.shop, after, {});
    hide Grows, SessionOk, RowsOk, OrdersOk, LotsOnce, PaymentsOnce, OffersApart, SameOffer;
    SessionsSurvive(s, after, {});
    OrdersStayOk(s.shop, after);
  }

  lemma {:induction false} SoldKeeps(s: ShopSystem, sold: map<AuctionId, WonLot>)
    requires Books(s) && Extends(s.shop.sold, sold)
    ensures Books(s.(shop := s.shop.(sold := sold))) && Grows(s.shop, s.shop.(sold := sold), {})
  {
    var after := s.shop.(sold := sold);
    assert Grows(s.shop, after, {});
    hide Grows, SessionOk, RowsOk, OrdersOk, LotsOnce, PaymentsOnce, OffersApart;
    SessionsSurvive(s, after, {});
    OrdersStayOk(s.shop, after);
  }

  // ---- Pricing ----

  /** A session that is new, or that moves on without a write. */
  lemma {:induction false} SessionMoves(s: ShopSystem, id: SessionId, session: Session)
    requires Books(s) && SessionOk(s.shop, id, session)
    requires id in s.sessions ==> session.offer == s.sessions[id].offer
    requires id !in s.sessions && session.offer.Some? ==> forall x | x in s.sessions ::
        s.sessions[x].offer != session.offer
    ensures Books(s.(sessions := s.sessions[id := session]))
  {
    hide SessionOk, RowsOk, OrdersOk, LotsOnce, PaymentsOnce, Baskets;
  }

  lemma {:induction false} UnknownIsClean(s: ShopSystem, id: SessionId)
    requires Books(s) && id !in s.sessions
    ensures NoOrders(s.shop, id) && NoPayment(s.shop, id)
  {
    hide SessionOk, RowsOk, OrdersOk, LotsOnce, PaymentsOnce, Baskets, OffersApart;
  }

  lemma {:induction false} CartLinesOk(shop: Shop, buyerId: UserId, selected: Option<set<CartItemId>>,
      items: seq<CartItemId>)
    requires Baskets(shop) && CartRows(shop, buyerId, selected, items)
        && PriceCart(shop, buyerId, selected, items).Some?
    ensures LinesOk(shop, Session(buyerId, None, Redeemed), PriceCart(shop, buyerId, selected, items).value)
  {
    hide Issues;
    var lines := CartLines(shop, items);
    forall i | 0 <= i < |lines|
      ensures LineOk(shop, buyerId, lines[i])
    {
      LineSubtotal(shop.products[shop.cart[items[i]].productId], shop.cart[items[i]].quantity);
    }
  }

  lemma {:induction false} LineSubtotal(product: Product, quantity: nat)
    ensures
      var t := CalculateLineTotal(product.price, quantity, product.rule);
      t.subtotal == t.effectiveUnitPrice * quantity
  {
    hide RoundedQuotient;
  }

  lemma {:induction false} OpenedKeeps(s: ShopSystem, id: SessionId, buyerId: UserId, lines: Option<seq<Line>>)
    requires Books(s) && (lines.Some? ==> LinesOk(s.shop, Session(buyerId, None, Redeemed), lines.value))
    ensures Books(Opened(s, id, buyerId, lines)) && Opened(s, id, buyerId, lines).shop == s.shop
  {
    hide LinesOk, NoOrders, NoPayment, Books;
    if id !in s.sessions {
      UnknownIsClean(s, id);
      var session := Session(buyerId, None, if lines.Some? then Priced(lines.value) else Refused);
      if lines.Some? { LinesIgnoreStage(s.shop, Session(buyerId, None, Redeemed), session, lines.value); }
      SessionMoves(s, id, session);
    }
  }

  lemma {:induction false} LinesIgnoreStage(shop: Shop, a: Session, b: Session, lines: seq<Line>)
    requires LinesOk(shop, a, lines) && a.buyerId == b.buyerId && a.offer == b.offer
    ensures LinesOk(shop, b, lines)
  {
  }

  lemma {:induction false} RedeemKeeps(s: ShopSystem, id: SessionId, buyerId: UserId, o: OfferId, now: nat)
    requires Books(s)
    ensures Books(Next(s, RedeemOffer(id, buyerId, o, now)))
    ensures Grows(s.shop, Next(s, RedeemOffer(id, buyerId, o, now)).shop, {})
  {
    hide RowsOk, OrdersOk, LotsOnce, PaymentsOnce, NoOrders, NoPayment, LinesOk, OrderedAs, PaidBy;
    if id in s.sessions || ConsumeStep(s.shop, o, now).None? {
      assert Grows(s.shop, s.shop, {});
    } else {
      var after := ConsumeStep(s.shop, o, now).value;
      OffersKeep(s, after);
      var mid := s.(shop := after);
      UnknownIsClean(mid, id);
      forall x | x in s.sessions
        ensures s.sessions[x].offer != Some(o)
      {
        assert SessionOk(s.shop, x, s.sessions[x]);
      }
      hide Books, Grows;
      SessionMoves(mid, id, Session(buyerId, Some(o), Redeemed));
    }
  }

  lemma {:induction false} PriceRedeemedKeeps(s: ShopSystem, id: SessionId)
    requires Books(s)
    ensures Books(Next(s, PriceRedeemed(id))) && Next(s, PriceRedeemed(id)).shop == s.shop
  {
    if id in s.sessions && s.sessions[id].stage.Redeemed? && s.sessions[id].offer.Some? {
      assert SessionOk(s.shop, id, s.sessions[id]);
      hide RowsOk, OrdersOk, LotsOnce, PaymentsOnce, NoOrders, NoPayment, OrderedAs, PaidBy;
      SessionMoves(s, id, Next(s, PriceRedeemed(id)).sessions[id]);
    }
  }

  lemma {:induction false} ChargeKeeps(s: ShopSystem, id: SessionId)
    requires Books(s)
    ensures Books(Next(s, Charge(id))) && Grows(s.shop, Next(s, Charge(id)).shop, {id})
  {
    hide RowsOk, OrdersOk, LotsOnce, LinesOk, OrderedAs, SumBy;
    if id in s.sessions && s.sessions[id].stage.Priced? {
      assert SessionOk(s.shop, id, s.sessions[id]);
      var lines := s.sessions[id].stage.lines;
      var after := Next(s, Charge(id)).shop;
      assert Grows(s.shop, after, {id});
      ChargeRest(s, id, after);
    } else {
      assert Grows(s.shop, s.shop, {id});
    }
  }

  lemma {:induction false} ChargeRest(s: ShopSystem, id: SessionId, after: Shop)
    requires Books(s) && id in s.sessions && s.sessions[id].stage.Priced?
    requires after == Next(s, Charge(id)).shop && Grows(s.shop, after, {id})
    ensures Books(Next(s, Charge(id)))
  {
    hide RowsOk, LotsOnce, OrderedAs, SumBy, Grows, SameReceipt;
    var lines := s.sessions[id].stage.lines;
    assert SessionOk(s.shop, id, s.sessions[id]);
    SessionsSurvive(s, after, {id});
    SameTables(s.shop, after);
    LinesIgnoreStage(after, s.sessions[id], Next(s, Charge(id)).sessions[id], lines);
    hide OrdersOk, LinesOk;
  }

  lemma {:induction false} SameTables(shop: Shop, after: Shop)
    requires after == shop.(payments := after.payments)
    ensures OrdersOk(shop) ==> OrdersOk(after)
    ensures forall session, lines :: LinesOk(shop, session, lines) ==> LinesOk(after, session, lines)
  {
    hide ReadParcel, ItemsValue;
    if OrdersOk(shop) {
      forall k | 0 <= k < |after.orders|
        ensures OrderOk(after, after.orders[k])
      {
        assert OrderOk(shop, shop.orders[k]);
        assert forall i | 0 <= i < |shop.orders[k].items| ::
            ItemOk(shop, shop.orders[k].sellerId, shop.orders[k].buyerId, shop.orders[k].items[i]);
      }
    }
    forall session, lines | LinesOk(shop, session, lines)
      ensures LinesOk(after, session, lines)
    {
      assert forall i | 0 <= i < |lines| :: LineOk(shop, session.buyerId, lines[i]);
    }
  }
}
