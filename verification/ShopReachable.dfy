/** Parcels, and then every action: what holds in every reachable state of the shop. */
module ShopReachable {
  import opened Wrappers
  import opened ShopRules
  import opened ShopSteps
  import opened ShopRuns
  import opened ShopInvariant
  import opened ShopCommit

  // ---- Putting the goods back ----

  ghost predicate Restocked(before: map<ProductId, Product>, items: seq<OrderItem>, after: map<ProductId, Product>) {
    && after.Keys == before.Keys
    && (forall p | p in before :: after[p] == before[p].(stockQty := before[p].stockQty + ItemUnits(items, p)))
  }

  lemma {:induction false} ItemUnitsAppend(items: seq<OrderItem>, item: OrderItem, p: ProductId)
    ensures ItemUnits(items + [item], p) == ItemUnits(items, p) + if item.productId == Some(p) then item.quantity else 0
  {
    assert (items + [item])[..|items|] == items;
  }

  lemma {:induction false} RestockAdds(products: map<ProductId, Product>, items: seq<OrderItem>)
    ensures Restocked(products, items, Restock(products, items))
    decreases |items|
  {
    if items != [] {
      hide ItemUnits;
      var last := |items| - 1;
      RestockAdds(products, items[..last]);
      assert items == items[..last] + [items[last]];
      forall p | p in products
        ensures Restock(products, items)[p] == products[p].(stockQty := products[p].stockQty + ItemUnits(items, p))
      {
        ItemUnitsAppend(items[..last], items[last], p);
      }
    }
  }

  lemma {:induction false} UnitsMeanProduct(items: seq<OrderItem>, p: ProductId)
    requires PositiveItems(items)
    ensures ItemUnits(items, p) > 0 <==> p in ItemProducts(items)
  {
    MentionedMeansUnits(items, p);
    hide ItemUnits;
    if p in ItemProducts(items) {
      var i :| 0 <= i < |items| && items[i].productId.Some? && items[i].productId.value == p;
      assert items[i].productId == Some(p);
    }
  }

  lemma {:induction false} ReopenedRow(before: map<ProductId, Product>, items: seq<OrderItem>,
      stocked: map<ProductId, Product>, p: ProductId, units: int)
    requires Restocked(before, items, stocked) && PositiveItems(items) && p in before && units >= ItemUnits(items, p)
    ensures UnitsMoved(before[p], Reopen(stocked, ItemProducts(items))[p], units, units - ItemUnits(items, p))
  {
    UnitsMeanProduct(items, p);
    hide ItemUnits, ItemProducts, PositiveItems, RuleWhole;
  }

  // ---- A parcel moves ----

  function MovedOrder(order: Order, next: ShipmentStatus): Order {
    order.(shipment := next, shipmentEvents := order.shipmentEvents + [next],
           status := if next == SH_CANCELLED then CANCELLED else order.status)
  }

  ghost predicate ParcelMoved(shop: Shop, k: nat, next: ShipmentStatus, after: Shop) {
    && k < |shop.orders|
    && CanTransition(shop.orders[k].shipment, next)
    && after == shop.(orders := shop.orders[k := MovedOrder(shop.orders[k], next)], products := after.products)
    && after.products == (if next == SH_CANCELLED
                          then Reopen(Restock(shop.products, shop.orders[k].items), ItemProducts(shop.orders[k].items))
                          else shop.products)
  }

  lemma {:induction false} ShipmentShape(shop: Shop, k: nat, userId: UserId, expected: ShipmentStatus,
      next: ShipmentStatus)
    ensures
      var r := ShipmentStep(shop, k, userId, expected, next);
      r.Some? ==> ParcelMoved(shop, k, next, r.value) && shop.orders[k].sellerId == userId
  {
    hide Restock, Reopen, ItemProducts;
  }

  lemma {:induction false} MovedOrderOk(before: Shop, after: Shop, order: Order, next: ShipmentStatus)
    requires OrderOk(before, order) && CanTransition(order.shipment, next) && Grows(before, after, {})
    ensures OrderOk(after, MovedOrder(order, next))
    ensures order.status == PAID
  {
    OrderSurvives(before, after, {}, order);
    hide ItemsValue, Grows, ItemOk;
    var moved := MovedOrder(order, next);
    assert moved.shipmentEvents[..|order.shipmentEvents|] == order.shipmentEvents;
    assert moved.items == order.items;
  }

  lemma {:induction false} ParcelKeys(shop: Shop, k: nat, next: ShipmentStatus, after: Shop)
    requires ParcelMoved(shop, k, next, after)
    ensures after.products.Keys == shop.products.Keys
  {
    RestockAdds(shop.products, shop.orders[k].items);
    hide Restock, ItemUnits, ItemProducts, CanTransition;
  }

  lemma {:induction false} ParcelRow(shop: Shop, k: nat, next: ShipmentStatus, after: Shop, p: ProductId)
    requires ParcelMoved(shop, k, next, after) && p in shop.products && p in after.products
    requires shop.orders[k].status == PAID && PositiveItems(shop.orders[k].items)
    ensures UnitsMoved(shop.products[p], after.products[p], UnitsOut(shop.orders, p), UnitsOut(after.orders, p))
  {
    var order := shop.orders[k];
    RestockAdds(shop.products, order.items);
    MovedUnits(shop.orders, k, MovedOrder(order, next), p);
    hide Restock, Restocked, Reopen, UnitsOut, UnitsMoved, PositiveItems, ItemUnits, ItemProducts, CanTransition;
    if next == SH_CANCELLED {
      ReopenedRow(shop.products, order.items, Restock(shop.products, order.items), p, UnitsOut(shop.orders, p));
    } else {
      SameRow(shop.products[p], UnitsOut(shop.orders, p));
    }
  }

  /** Cancelling gives back what the order took; any other move leaves the shelf alone. */
  lemma {:induction false} ParcelMovesUnits(shop: Shop, k: nat, next: ShipmentStatus, after: Shop)
    requires ParcelMoved(shop, k, next, after)
    requires shop.orders[k].status == PAID && PositiveItems(shop.orders[k].items)
    ensures AllMoved(shop, after)
  {
    ParcelKeys(shop, k, next, after);
    hide ParcelMoved, UnitsOut, UnitsMoved, PositiveItems;
    forall p | p in shop.products
      ensures UnitsMoved(shop.products[p], after.products[p], UnitsOut(shop.orders, p), UnitsOut(after.orders, p))
    {
      ParcelRow(shop, k, next, after, p);
    }
  }

  lemma {:induction false} MovedUnits(orders: seq<Order>, k: nat, moved: Order, p: ProductId)
    requires k < |orders| && orders[k].status == PAID && moved.items == orders[k].items
    ensures UnitsOut(orders[k := moved], p) == UnitsOut(orders, p) - if moved.status == CANCELLED
        then ItemUnits(moved.items, p) else 0
  {
    hide UnitsOut, ItemUnits;
    UnitsOutUpdate(orders, k, moved, p);
  }

  lemma {:induction false} SameRow(row: Product, units: int)
    ensures UnitsMoved(row, row, units, units)
  {
  }

  lemma {:induction false} ParcelGrows(shop: Shop, k: nat, next: ShipmentStatus, after: Shop)
    requires ParcelMoved(shop, k, next, after) && shop.orders[k].status == PAID
    requires RowsStay(shop.products, after.products)
    ensures Grows(shop, after, {})
  {
    hide RowsStay, Restock, Reopen, ItemProducts;
  }

  lemma {:induction false} ParcelOrders(shop: Shop, k: nat, next: ShipmentStatus, after: Shop)
    requires ParcelMoved(shop, k, next, after) && Grows(shop, after, {}) && OrdersOk(shop) && LotsOnce(shop.orders)
    ensures OrdersOk(after) && LotsOnce(after.orders)
  {
    hide Restock, Reopen, ItemProducts, Grows, OrderOk;
    MovedOrderOk(shop, after, shop.orders[k], next);
    forall l | 0 <= l < |after.orders|
      ensures OrderOk(after, after.orders[l])
    {
      if l != k { OrderSurvives(shop, after, {}, shop.orders[l]); }
    }
    forall a: AuctionId, l: nat, i: nat, m: nat, j: nat | LotAt(after.orders, l, i, a) && LotAt(after.orders, m, j, a)
      ensures l == m && i == j
    {
      assert after.orders[l].items == shop.orders[l].items && after.orders[m].items == shop.orders[m].items;
      assert LotAt(shop.orders, l, i, a) && LotAt(shop.orders, m, j, a);
    }
  }

  lemma {:induction false} ParcelRest(s: ShopSystem, k: nat, next: ShipmentStatus, after: Shop)
    requires Books(s) && ParcelMoved(s.shop, k, next, after) && after.products.Keys == s.shop.products.Keys
    ensures Baskets(after) && after.payments == s.shop.payments
    ensures forall l | 0 <= l < |after.orders| :: after.orders[l].sessionId in s.sessions
  {
    hide RowsOk, EditsOk, OrdersOk, LotsOnce, PaymentsOnce, SessionOk, OffersApart, Restock, Reopen, ItemProducts;
  }

  lemma {:induction false} ShipmentKeeps(s: ShopSystem, k: nat, userId: UserId, expected: ShipmentStatus,
      next: ShipmentStatus)
    requires Books(s)
    ensures
      var after := Next(s, UpdateShipment(k, userId, expected, next));
      Books(after) && Grows(s.shop, after.shop, {})
  {
    hide Books, Grows, ShipmentStep, ParcelMoved;
    NothingGrows(s.shop);
    var r := ShipmentStep(s.shop, k, userId, expected, next);
    ShipmentShape(s.shop, k, userId, expected, next);
    if r.Some? { ParcelKeeps(s, k, next, r.value); }
  }

  lemma {:induction false} PaidParcel(s: ShopSystem, k: nat, next: ShipmentStatus, after: Shop)
    requires Books(s) && ParcelMoved(s.shop, k, next, after)
    ensures OrderOk(s.shop, s.shop.orders[k]) && PositiveItems(s.shop.orders[k].items)
        && s.shop.orders[k].status == PAID
  {
    hide RowsOk, EditsOk, LotsOnce, PaymentsOnce, SessionOk, OffersApart, Baskets, PositiveItems, Restock, Reopen;
    PositiveOrders(s.shop);
    assert OrderOk(s.shop, s.shop.orders[k]);
  }

  lemma {:induction false} ParcelKeeps(s: ShopSystem, k: nat, next: ShipmentStatus, after: Shop)
    requires Books(s) && ParcelMoved(s.shop, k, next, after)
    ensures Books(s.(shop := after)) && Grows(s.shop, after, {})
  {
    PaidParcel(s, k, next, after);
    ParcelMovesUnits(s.shop, k, next, after);
    MovedRows(s.shop, after);
    assert after.products.Keys == s.shop.products.Keys;
    hide RowsOk, EditsOk, OrdersOk, LotsOnce, PaymentsOnce, SessionOk, OffersApart, Baskets, ParcelMoved, OrderOk,
        PositiveItems, AllMoved, RowsStay, Grows;
    MovedEdits(s, after);
    SameEdits(s, s.(shop := after));
    ParcelGrows(s.shop, k, next, after);
    ParcelOrders(s.shop, k, next, after);
    ParcelRest(s, k, next, after);
    SessionsSurvive(s, after, {});
  }

  // ---- Lots ----

  lemma {:induction false} LotLinesOk(shop: Shop, buyerId: UserId, a: AuctionId)
    requires PriceAuction(shop, buyerId, a).Some?
    ensures LinesOk(shop, Session(buyerId, None, Redeemed), PriceAuction(shop, buyerId, a).value)
  {
    hide LotPaid;
  }

  // ---- Every action ----

  /** The sessions an action writes payments or orders for. */
  function WritesFor(action: Action): set<SessionId> {
    match action
    case Charge(id) => {id}
    case WriteOrders(id) => {id}
    case _ => {}
  }

  lemma {:induction false} CheckoutKeeps(s: ShopSystem, action: Action)
    requires Books(s) && (action.CheckoutCart? || action.CheckoutLot? || action.RedeemOffer? || action.PriceRedeemed?)
    ensures Books(Next(s, action)) && Grows(s.shop, Next(s, action).shop, {})
  {
    assert Grows(s.shop, s.shop, {});
    hide Grows, LinesOk, PriceCart, PriceAuction, PriceOffer, Opened, ConsumeStep;
    match action {
      case CheckoutCart(id, buyerId, selected, items) =>
        if CartRows(s.shop, buyerId, selected, items) {
          assert Baskets(s.shop);
          hide Books;
          var lines := PriceCart(s.shop, buyerId, selected, items);
          if lines.Some? { CartLinesOk(s.shop, buyerId, selected, items); }
          OpenedKeeps(s, id, buyerId, lines);
        }
      case CheckoutLot(id, buyerId, a) =>
        hide Books;
        var lines := PriceAuction(s.shop, buyerId, a);
        if lines.Some? { LotLinesOk(s.shop, buyerId, a); }
        OpenedKeeps(s, id, buyerId, lines);
      case RedeemOffer(id, buyerId, o, now) => RedeemKeeps(s, id, buyerId, o, now);
      case PriceRedeemed(id) => PriceRedeemedKeeps(s, id);
    }
  }

  lemma {:induction false} CartActionKeeps(s: ShopSystem, action: Action)
    requires Books(s) && (action.PutInCart? || action.DropFromCart?)
    ensures Books(Next(s, action)) && Grows(s.shop, Next(s, action).shop, {})
  {
    NothingGrows(s.shop);
    BasketsInBooks(s);
    hide Grows, Books;
    match action {
      case PutInCart(item, row) => if Next(s, action) != s { CartKeeps(s, Next(s, action).shop); }
      case DropFromCart(item) => CartKeeps(s, Next(s, action).shop);
    }
  }

  lemma {:induction false} BasketsInBooks(s: ShopSystem)
    requires Books(s)
    ensures Baskets(s.shop)
  {
    hide Baskets;
  }

  lemma {:induction false} TrayKeeps(s: ShopSystem, action: Action)
    requires Books(s) && (action.RecordOffer? || action.SettleLots?)
    ensures Books(Next(s, action)) && Grows(s.shop, Next(s, action).shop, {})
  {
    NothingGrows(s.shop);
    BasketsInBooks(s);
    hide Grows, Books, Extends;
    match action {
      case RecordOffer(o, offer) => if Next(s, action) != s { OffersKeep(s, Next(s, action).shop); }
      case SettleLots(sold) => if Extends(s.shop.sold, sold) { SoldKeeps(s, sold); }
    }
  }

  lemma {:induction false} NextKeeps(s: ShopSystem, action: Action)
    requires Books(s)
    ensures Books(Next(s, action)) && Grows(s.shop, Next(s, action).shop, WritesFor(action))
  {
    hide Books, Grows, Next;
    match action {
      case Charge(id) => ChargeKeeps(s, id);
      case WriteOrders(id) => WriteOrdersKeeps(s, id);
      case UpdateShipment(k, userId, expected, next) => ShipmentKeeps(s, k, userId, expected, next);
      case PutInCart(_, _) => CartActionKeeps(s, action);
      case DropFromCart(_) => CartActionKeeps(s, action);
      case RecordOffer(_, _) => TrayKeeps(s, action);
      case SettleLots(_) => TrayKeeps(s, action);
      case CheckoutCart(_, _, _, _) => CheckoutKeeps(s, action);
      case CheckoutLot(_, _, _) => CheckoutKeeps(s, action);
      case RedeemOffer(_, _, _, _) => CheckoutKeeps(s, action);
      case PriceRedeemed(_) => CheckoutKeeps(s, action);
      case Create(_, _, _, _, _, _) => CreateKeeps(s, action);
      case JudgeEdit(_, _) => HalvesKeep(s, action);
      case CountReferences(_) => HalvesKeep(s, action);
      case WriteEdit(_) => HalvesKeep(s, action);
      case _ => EditKeeps(s, action);
    }
  }

  lemma {:induction false} RunKeeps(s: ShopSystem, actions: seq<Action>)
    requires Books(s)
    ensures Books(Run(s, actions))
    decreases |actions|
  {
    hide Books, Next;
    if actions != [] {
      RunKeeps(s, actions[..|actions| - 1]);
      NextKeeps(Run(s, actions[..|actions| - 1]), actions[|actions| - 1]);
    }
  }

  lemma {:induction false} EmptyIsFine()
    ensures Books(EMPTY)
  {
  }

  /** Whatever anybody does, in any order, from an empty shop. */
  lemma {:induction false} ReachableBooks(actions: seq<Action>)
    ensures Books(Run(EMPTY, actions))
  {
    EmptyIsFine();
    RunKeeps(EMPTY, actions);
  }

  // ---- Actions that leave a seller's declarations alone ----

  lemma {:induction false} NothingMoves(before: Shop, after: Shop)
    requires after.products == before.products && after.orders == before.orders
    ensures AllMoved(before, after)
  {
    hide UnitsOut, UnitsMoved;
    forall p | p in before.products
      ensures UnitsMoved(before.products[p], after.products[p], UnitsOut(before.orders, p), UnitsOut(after.orders, p))
    {
      SameRow(before.products[p], UnitsOut(before.orders, p));
    }
  }

  lemma {:induction false} CommitMoves(s: ShopSystem, id: SessionId)
    requires Books(s)
    ensures AllMoved(s.shop, Next(s, WriteOrders(id)).shop)
  {
    hide AllMoved, RowsOk, EditsOk, OrdersOk, LotsOnce, PaymentsOnce, WriteOrdersStep, PaidBy, NoOrders, OrderedAs,
        OfferSpent;
    if Next(s, WriteOrders(id)).shop == s.shop {
      NothingMoves(s.shop, s.shop);
    } else {
      var session := s.sessions[id];
      var Charged(lines, payment) := session.stage;
      var after := Next(s, WriteOrders(id)).shop;
      assert SessionOk(s.shop, id, session);
      LinesAreFine(s.shop, session, lines);
      assert Committed(s.shop, id, session.buyerId, payment, lines, after);
      hide Books, LinesOk, SessionOk;
      CommitMovesUnits(s.shop, id, session.buyerId, payment, lines, after);
    }
  }

  lemma {:induction false} ParcelMoves(s: ShopSystem, k: nat, userId: UserId, expected: ShipmentStatus,
      next: ShipmentStatus)
    requires Books(s)
    ensures AllMoved(s.shop, Next(s, UpdateShipment(k, userId, expected, next)).shop)
  {
    hide Books, AllMoved, ShipmentStep, ParcelMoved, PositiveItems, OrderOk;
    ShipmentShape(s.shop, k, userId, expected, next);
    var r := ShipmentStep(s.shop, k, userId, expected, next);
    NothingMoves(s.shop, s.shop);
    if r.Some? {
      PaidParcel(s, k, next, r.value);
      ParcelMovesUnits(s.shop, k, next, r.value);
    }
  }

  /** The actions that write what a seller or an admin decided about a listing. */
  predicate Declares(action: Action) {
    action.Create? || Edits(action) || action.WriteEdit?
  }

  /** All that any other action can do to a listing is to move units between the shelf and the orders. */
  lemma {:induction false} OthersMoveUnits(s: ShopSystem, action: Action)
    requires Books(s) && !Declares(action)
    ensures AllMoved(s.shop, Next(s, action).shop)
  {
    hide Books, AllMoved, CartRows, PriceCart, PriceAuction, PriceOffer, SumBy, Extends, Issues, ShipmentStep,
        WriteOrdersStep, TurnedDown;
    match action {
      case WriteOrders(id) => CommitMoves(s, id);
      case UpdateShipment(k, userId, expected, next) => ParcelMoves(s, k, userId, expected, next);
      case _ => NothingMoves(s.shop, Next(s, action).shop);
    }
  }

  /** Judged, counted and written with nothing in between, an edit is its one step, and is done with. */
  lemma {:induction false} HalvesTogetherAreTheStep(s: ShopSystem, edit: EditId, action: Action)
    requires edit !in s.edits && Edits(action)
    ensures Next(Next(Next(s, JudgeEdit(edit, action)), CountReferences(edit)), WriteEdit(edit)) == Next(s, action)
  {
    var p := ListedProduct(action);
    var judged := Next(s, JudgeEdit(edit, action));
    var counted := Next(judged, CountReferences(edit));
    AtOnceIsTheStep(s, action);
    if p in s.shop.products && !TurnedDown(s.shop.products[p], action) {
      JudgedThenCounted(s, edit, action);
      hide Next, TurnedDown, Referenced, Landed, WriteOf;
      WrittenIs(s, counted, edit, action);
    } else {
      hide TurnedDown, Referenced;
      assert judged == s;
      assert counted == s;
    }
  }

  lemma {:induction false} JudgedThenCounted(s: ShopSystem, edit: EditId, action: Action)
    requires edit !in s.edits && Edits(action) && ListedProduct(action) in s.shop.products
    requires !TurnedDown(s.shop.products[ListedProduct(action)], action)
    ensures
      var p := ListedProduct(action);
      var live := if action.Remove? then Referenced(s.shop.orders, p) else false;
      Next(Next(s, JudgeEdit(edit, action)), CountReferences(edit))
      == s.(edits := s.edits[edit := OpenEdit(action, s.shop.products[p], Some(live))])
  {
    hide TurnedDown, Referenced;
  }

  lemma {:induction false} WrittenIs(s: ShopSystem, counted: ShopSystem, edit: EditId, action: Action)
    requires edit !in s.edits && Edits(action) && ListedProduct(action) in s.shop.products
    requires
      var p := ListedProduct(action);
      var live := if action.Remove? then Referenced(s.shop.orders, p) else false;
      counted == s.(edits := s.edits[edit := OpenEdit(action, s.shop.products[p], Some(live))])
    ensures
      var p := ListedProduct(action);
      Next(counted, WriteEdit(edit))
      == s.(shop := Landed(s.shop, p, WriteOf(s.shop.products[p], Referenced(s.shop.orders, p), action)))
  {
    hide Referenced, Landed;
    assert counted.edits - {edit} == s.edits;
    var p := ListedProduct(action);
    if !action.Remove? { OnlyRemovalCounts(s.shop.products[p], Referenced(s.shop.orders, p), action); }
    hide WriteOf;
  }

  lemma {:induction false} OnlyRemovalCounts(read: Product, referenced: bool, action: Action)
    requires Edits(action) && !action.Remove?
    ensures WriteOf(read, referenced, action) == WriteOf(read, false, action)
  {
  }

  // ---- The lots and the offers ----

  lemma {:induction false} OrdersLeaveTables(shop: Shop, id: SessionId, buyerId: UserId, payment: nat, lines: seq<Line>)
    ensures
      var r := WriteOrdersStep(shop, id, buyerId, payment, lines);
      r.Ok? ==> r.value.sold == shop.sold && r.value.offers == shop.offers
  {
    hide InsertOrders, DecrementAll, MarkSoldOut;
  }

  lemma {:induction false} ParcelLeavesTables(shop: Shop, k: nat, userId: UserId, expected: ShipmentStatus,
      next: ShipmentStatus)
    ensures
      var r := ShipmentStep(shop, k, userId, expected, next);
      r.Some? ==> r.value.sold == shop.sold && r.value.offers == shop.offers
  {
    hide Restock, Reopen;
  }

  lemma {:induction false} DeclaringLeavesTables(s: ShopSystem, action: Action)
    requires Declares(action)
    ensures Next(s, action).shop.sold == s.shop.sold && Next(s, action).shop.offers == s.shop.offers
  {
    if Edits(action) {
      AtOnceIsTheStep(s, action);
      hide Next, TurnedDown, Referenced, WriteOf, Land;
    } else {
      hide TurnedDown, WriteOf, Land, RuleWhole;
    }
  }

  lemma {:induction false} CheckoutLeavesTables(s: ShopSystem, action: Action)
    requires action.CheckoutCart? || action.CheckoutLot? || action.RedeemOffer? || action.PriceRedeemed?
        || action.Charge?
    ensures Next(s, action).shop.sold == s.shop.sold && Next(s, action).shop.offers.Keys == s.shop.offers.Keys
  {
    hide PriceCart, PriceOffer, PriceAuction, CartRows, ChargeOf;
  }

  /** Only settlement changes what is sold, and only recording adds an offer. */
  lemma {:induction false} TablesLeftAlone(s: ShopSystem, action: Action)
    ensures !action.SettleLots? ==> Next(s, action).shop.sold == s.shop.sold
    ensures !action.RecordOffer? ==> Next(s, action).shop.offers.Keys == s.shop.offers.Keys
  {
    hide WriteOrdersStep, ShipmentStep, PriceCart, PriceOffer, PriceAuction, CartRows, ConsumeStep, TurnedDown, Extends;
    if Declares(action) {
      hide Next;
      DeclaringLeavesTables(s, action);
    } else if action.CheckoutCart? || action.CheckoutLot? || action.RedeemOffer? || action.PriceRedeemed?
        || action.Charge? {
      hide Next;
      CheckoutLeavesTables(s, action);
    } else if action.WriteOrders? {
      if action.session in s.sessions && s.sessions[action.session].stage.Charged? {
        var session := s.sessions[action.session];
        OrdersLeaveTables(s.shop, action.session, session.buyerId, session.stage.payment, session.stage.lines);
        WritingIs(s, action.session);
        hide Next;
      }
    } else if action.UpdateShipment? {
      ParcelLeavesTables(s.shop, action.k, action.userId, action.expected, action.next);
    }
  }

  ghost predicate Reachable(s: ShopSystem) {
    exists actions :: s == Run(EMPTY, actions)
  }

  lemma {:induction false} ReachableIsGood(s: ShopSystem)
    requires Reachable(s)
    ensures Books(s)
  {
    hide Books, Run;
    var actions :| s == Run(EMPTY, actions);
    ReachableBooks(actions);
  }

  lemma {:induction false} ReachableNext(s: ShopSystem, action: Action)
    requires Reachable(s)
    ensures Reachable(Next(s, action))
  {
    hide Next;
    var actions :| s == Run(EMPTY, actions);
    var more := actions + [action];
    assert more[..|more| - 1] == actions;
    assert Run(EMPTY, more) == Next(s, action);
  }
}
