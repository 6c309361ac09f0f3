/** What the shop promises, over every run. */
module ShopTheorems {
  import opened Wrappers
  import opened ShopRules
  import opened ShopSteps
  import opened ShopRuns
  import opened ShopInvariant
  import opened ShopCommit
  import opened ShopReachable

  lemma {:induction false} GoodSession(s: ShopSystem, x: SessionId)
    requires Reachable(s) && x in s.sessions
    ensures SessionOk(s.shop, x, s.sessions[x]) && PaymentsOnce(s.shop.payments)
  {
    hide Reachable, RowsOk, EditsOk, OrdersOk, LotsOnce, PaymentsOnce, Baskets, Known, OffersApart, SessionOk;
    ReachableIsGood(s);
  }

  lemma {:induction false} GoodOrder(s: ShopSystem, k: nat)
    requires Reachable(s) && k < |s.shop.orders|
    ensures OrderOk(s.shop, s.shop.orders[k]) && s.shop.orders[k].sessionId in s.sessions
  {
    hide Reachable, RowsOk, EditsOk, OrderOk, LotsOnce, PaymentsOnce, Baskets, OffersApart, SessionOk;
    ReachableIsGood(s);
  }

  // ---- One listing across one action ----

  /** What a stock write adds to the units declared; negative when the stock is set lower. */
  function Declared(w: RowWrite, now: Product): int {
    if w.stockQty.Set? then w.stockQty.value - now.stockQty else 0
  }

  /** What an action adds to the units its seller declared for a listing, as it is written. */
  function SuppliedBy(s: ShopSystem, action: Action, p: ProductId): int {
    if action.Create? then
      if action.p == p && p !in s.shop.products && RuleWhole(action.rule) then action.stockQty else 0
    else if Edits(action) then
      if ListedProduct(action) == p && p in s.shop.products && !TurnedDown(s.shop.products[p], action)
      then Declared(WriteOf(s.shop.products[p], false, action), s.shop.products[p]) else 0
    else if action.WriteEdit? && Ready(s, action.edit) && ListedProduct(s.edits[action.edit].action) == p then
      Declared(OpenWrite(s, action.edit), s.shop.products[p])
    else 0
  }

  function Stock(shop: Shop, p: ProductId): int {
    if p in shop.products then shop.products[p].stockQty else 0
  }

  lemma {:induction false} CreatedStock(s: ShopSystem, action: Action, p: ProductId)
    requires action.Create?
    ensures Next(s, action).shop.orders == s.shop.orders
    ensures Stock(Next(s, action).shop, p) == Stock(s.shop, p) + SuppliedBy(s, action, p)
  {
    hide RuleWhole;
  }

  lemma {:induction false} LandedStock(shop: Shop, q: ProductId, w: RowWrite, p: ProductId)
    requires q in shop.products
    ensures Stock(Landed(shop, q, w), p) == Stock(shop, p) + if q == p then Declared(w, shop.products[q]) else 0
  {
  }

  lemma {:induction false} WrittenStock(s: ShopSystem, edit: EditId, p: ProductId)
    ensures Next(s, WriteEdit(edit)).shop.orders == s.shop.orders
    ensures Stock(Next(s, WriteEdit(edit)).shop, p) == Stock(s.shop, p) + SuppliedBy(s, WriteEdit(edit), p)
  {
    hide WriteOf, Land, Stock, Declared;
    if Ready(s, edit) { LandedStock(s.shop, ListedProduct(s.edits[edit].action), OpenWrite(s, edit), p); }
  }

  lemma {:induction false} EditedStock(s: ShopSystem, action: Action, p: ProductId)
    requires Edits(action)
    ensures Next(s, action).shop.orders == s.shop.orders
    ensures Stock(Next(s, action).shop, p) == Stock(s.shop, p) + SuppliedBy(s, action, p)
  {
    var q := ListedProduct(action);
    AtOnceIsTheStep(s, action);
    hide Next, TurnedDown, Referenced, Land, Stock;
    if q in s.shop.products && !TurnedDown(s.shop.products[q], action) {
      LandedStock(s.shop, q, WriteOf(s.shop.products[q], Referenced(s.shop.orders, q), action), p);
    }
  }

  lemma {:induction false} DeclaredStock(s: ShopSystem, action: Action, p: ProductId)
    requires Declares(action)
    ensures Next(s, action).shop.orders == s.shop.orders
    ensures Stock(Next(s, action).shop, p) == Stock(s.shop, p) + SuppliedBy(s, action, p)
  {
    if action.Create? {
      hide *;
      CreatedStock(s, action, p);
    } else if action.WriteEdit? {
      hide *;
      WrittenStock(s, action.edit, p);
    } else {
      assert Edits(action);
      hide *;
      EditedStock(s, action, p);
    }
  }

  lemma {:induction false} MovedStock(s: ShopSystem, action: Action, p: ProductId)
    requires Books(s) && !Declares(action)
    ensures
      var after := Next(s, action).shop;
      && (p in after.products <==> p in s.shop.products)
      && (p in s.shop.products ==>
            Stock(after, p) + UnitsOut(after.orders, p) == Stock(s.shop, p) + UnitsOut(s.shop.orders, p))
  {
    hide Books, Next, UnitsOut, ProductOk, RowOk;
    OthersMoveUnits(s, action);
  }

  // ---- Stock is conserved ----

  /** The units a seller declared for a listing, over a run. */
  ghost function Supplied(actions: seq<Action>, p: ProductId): int {
    if actions == [] then 0
    else
      var before := actions[..|actions| - 1];
      Supplied(before, p) + SuppliedBy(Run(EMPTY, before), actions[|actions| - 1], p)
  }

  lemma {:induction false} UnknownHasNoUnits(shop: Shop, p: ProductId)
    requires OrdersOk(shop) && p !in shop.products
    ensures UnitsOut(shop.orders, p) == 0
  {
    hide ReadParcel, ItemsValue;
    PositiveOrders(shop);
    ReferencedMeansUnits(shop.orders, p);
    hide UnitsOut, PositiveItems;
    forall k, i | 0 <= k < |shop.orders| && 0 <= i < |shop.orders[k].items|
      ensures shop.orders[k].items[i].productId != Some(p)
    {
      assert OrderOk(shop, shop.orders[k]);
      assert ItemOk(shop, shop.orders[k].sellerId, shop.orders[k].buyerId, shop.orders[k].items[i]);
    }
  }

  lemma {:induction false} NoOrdersNoUnits(p: ProductId)
    ensures UnitsOut([], p) == 0
  {
  }

  lemma {:induction false} StockStep(s: ShopSystem, action: Action, p: ProductId)
    requires Books(s)
    ensures
      var after := Next(s, action).shop;
      Stock(after, p) + UnitsOut(after.orders, p)
          == Stock(s.shop, p) + UnitsOut(s.shop.orders, p) + SuppliedBy(s, action, p)
  {
    NextKeeps(s, action);
    hide RowsOk, EditsOk, LotsOnce, PaymentsOnce, Baskets, Known, SessionOk, OffersApart, Grows, OrdersOk, Next,
        UnitsOut, WritesFor;
    if Declares(action) {
      DeclaredStock(s, action, p);
    } else {
      MovedStock(s, action, p);
      if p !in s.shop.products {
        UnknownHasNoUnits(s.shop, p);
        UnknownHasNoUnits(Next(s, action).shop, p);
      }
    }
  }

  /**
   * However checkouts, seller edits in one step or in halves, suspensions and
   * parcels interleave: what is on the shelf and what is in orders not cancelled
   * add up to what the seller declared, and the shelf never goes below zero.
   */
  lemma {:induction false} StockIsConserved(actions: seq<Action>, p: ProductId)
    ensures
      var shop := Run(EMPTY, actions).shop;
      && Stock(shop, p) + UnitsOut(shop.orders, p) == Supplied(actions, p)
      && Stock(shop, p) >= 0
    decreases |actions|
  {
    hide Books, Next, UnitsOut, SuppliedBy, RuleWhole;
    ReachableBooks(actions);
    RowsInBooks(Run(EMPTY, actions));
    if actions == [] {
      assert Run(EMPTY, actions) == EMPTY;
      assert UnitsOut([], p) == 0 by { NoOrdersNoUnits(p); }
    }
    if actions != [] {
      var before := actions[..|actions| - 1];
      StockIsConserved(before, p);
      ReachableBooks(before);
      StockStep(Run(EMPTY, before), actions[|actions| - 1], p);
    }
  }

  // ---- Orders and parcels ----

  const FROM_START: seq<ShipmentStatus> := [SH_PROCESSING]
  const SENT: seq<ShipmentStatus> := [SH_PROCESSING, SH_SHIPPED]
  const MOVING: seq<ShipmentStatus> := [SH_PROCESSING, SH_SHIPPED, SH_IN_TRANSIT]
  const ARRIVED: seq<ShipmentStatus> := [SH_PROCESSING, SH_SHIPPED, SH_IN_TRANSIT, SH_DELIVERED]
  const CALLED_OFF: seq<ShipmentStatus> := [SH_PROCESSING, SH_CANCELLED]

  lemma {:induction false} LogIsOneOf(events: seq<ShipmentStatus>, status: ShipmentStatus)
    requires ReadParcel(events) == Some(status)
    ensures match status
            case SH_PROCESSING => events == FROM_START
            case SH_SHIPPED => events == SENT
            case SH_IN_TRANSIT => events == MOVING
            case SH_DELIVERED => events == ARRIVED
            case SH_CANCELLED => events == CALLED_OFF
    decreases |events|
  {
    var last := |events| - 1;
    if last > 0 {
      LogIsOneOf(events[..last], ReadParcel(events[..last]).value);
      assert events == events[..last] + [events[last]];
    }
  }

  /**
   * Each order's parcel has been exactly where its log says: one of five logs, and the order is
   * CANCELLED exactly on the last.
   */
  lemma {:induction false} OrderFollowsParcel(s: ShopSystem, k: nat)
    requires Reachable(s) && k < |s.shop.orders|
    ensures
      var order := s.shop.orders[k];
      && (order.status == CANCELLED <==> order.shipment == SH_CANCELLED)
      && (order.shipment == SH_PROCESSING <==> order.shipmentEvents == [SH_PROCESSING])
      && (order.shipment == SH_SHIPPED <==> order.shipmentEvents == [SH_PROCESSING, SH_SHIPPED])
      && (order.shipment == SH_IN_TRANSIT <==> order.shipmentEvents == [SH_PROCESSING, SH_SHIPPED, SH_IN_TRANSIT])
      && (order.shipment == SH_DELIVERED <==>
            order.shipmentEvents == [SH_PROCESSING, SH_SHIPPED, SH_IN_TRANSIT, SH_DELIVERED])
      && (order.shipment == SH_CANCELLED <==> order.shipmentEvents == [SH_PROCESSING, SH_CANCELLED])
  {
    GoodOrder(s, k);
    hide Reachable, ReadParcel, ItemsValue, ItemOk;
    LogIsOneOf(s.shop.orders[k].shipmentEvents, s.shop.orders[k].shipment);
    assert |FROM_START| == 1 && |SENT| == 2 && SENT[1] == SH_SHIPPED && CALLED_OFF[1] == SH_CANCELLED;
    assert |CALLED_OFF| == 2 && |MOVING| == 3 && |ARRIVED| == 4;
  }

  /**
   * An order whose parcel was ever on its way stays paid: no later action of anybody cancels it or
   * takes its goods back.
   */
  lemma {:induction false} SentOrdersStayPaid(s: ShopSystem, actions: seq<Action>, k: nat)
    requires Books(s) && k < |s.shop.orders| && SH_SHIPPED in s.shop.orders[k].shipmentEvents
    ensures k < |Run(s, actions).shop.orders|
    ensures Run(s, actions).shop.orders[k].status == PAID
    ensures SH_SHIPPED in Run(s, actions).shop.orders[k].shipmentEvents
  {
    var later := Run(s, actions);
    hide Books, Run;
    RunKeeps(s, actions);
    ReceiptsAreFinal(s, actions, k);
    OrderInBooks(later, k);
    var order := later.shop.orders[k];
    hide ReadParcel, ItemsValue, ItemOk;
    LogIsOneOf(order.shipmentEvents, order.shipment);
    assert s.shop.orders[k].shipmentEvents <= order.shipmentEvents;
    assert SH_SHIPPED in order.shipmentEvents;
    assert SH_SHIPPED !in CALLED_OFF;
  }

  lemma {:induction false} OrderInBooks(s: ShopSystem, k: nat)
    requires Books(s) && k < |s.shop.orders|
    ensures OrderOk(s.shop, s.shop.orders[k])
  {
    hide RowsOk, EditsOk, OrderOk, LotsOnce, PaymentsOnce, Baskets, Known, SessionOk, OffersApart;
  }

  /**
   * What an order says is bought, by whom, from whom and for how much is never rewritten; a cancelled
   * order is never touched again.
   */
  lemma {:induction false} ReceiptsAreFinal(s: ShopSystem, actions: seq<Action>, k: nat)
    requires Books(s) && k < |s.shop.orders|
    ensures
      var later := Run(s, actions).shop;
      && k < |later.orders|
      && SameReceipt(s.shop.orders[k], later.orders[k])
      && s.shop.orders[k].shipmentEvents <= later.orders[k].shipmentEvents
      && (s.shop.orders[k].status == CANCELLED ==> later.orders[k] == s.shop.orders[k])
      && s.shop.payments <= later.payments
    decreases |actions|
  {
    hide Books, Next, WritesFor;
    if actions != [] {
      var before := actions[..|actions| - 1];
      ReceiptsAreFinal(s, before, k);
      RunKeeps(s, before);
      NextKeeps(Run(s, before), actions[|actions| - 1]);
      ReceiptStep(s.shop.orders[k], Run(s, before).shop, Run(s, actions).shop, WritesFor(actions[|actions| - 1]), k);
    }
  }

  lemma {:induction false} ReceiptStep(order: Order, before: Shop, after: Shop, except: set<SessionId>, k: nat)
    requires Grows(before, after, except) && k < |before.orders|
    requires SameReceipt(order, before.orders[k]) && (order.status == CANCELLED ==> before.orders[k] == order)
    requires order.shipmentEvents <= before.orders[k].shipmentEvents
    ensures k < |after.orders| && order.shipmentEvents <= after.orders[k].shipmentEvents
    ensures k < |after.orders| && SameReceipt(order, after.orders[k]) && before.payments <= after.payments
    ensures order.status == CANCELLED ==> after.orders[k] == order
  {
    assert SameReceipt(before.orders[k], after.orders[k]);
  }

  lemma {:induction false} ShipmentIs(s: ShopSystem, k: nat, userId: UserId, expected: ShipmentStatus,
      next: ShipmentStatus)
    ensures Next(s, UpdateShipment(k, userId, expected, next))
        == Written(s, ShipmentStep(s.shop, k, userId, expected, next))
  {
    hide ShipmentStep, WriteOrdersStep, PriceCart, CartRows;
  }

  lemma {:induction false} OnlyPaidMoves(shop: Shop, k: nat, next: ShipmentStatus, after: Shop)
    requires ParcelMoved(shop, k, next, after)
        && (shop.orders[k].status == CANCELLED <==> shop.orders[k].shipment == SH_CANCELLED)
    ensures shop.orders[k].status == PAID
  {
    hide Restock, Reopen, ItemProducts;
  }

  lemma {:induction false} ParcelRestocks(shop: Shop, k: nat, next: ShipmentStatus, after: Shop, p: ProductId)
    requires ParcelMoved(shop, k, next, after) && p in shop.products
    requires shop.orders[k].status == PAID && PositiveItems(shop.orders[k].items)
    ensures p in after.products && k < |after.orders|
    ensures after.products[p].stockQty == shop.products[p].stockQty
              + if after.orders[k].status == CANCELLED then ItemUnits(shop.orders[k].items, p) else 0
    ensures after.orders[k].status == PAID ==> after.products == shop.products
  {
    RestockAdds(shop.products, shop.orders[k].items);
    hide ItemUnits, Restock, Restocked, Reopen, ItemProducts, ProductOk, RowOk, PositiveItems, CanTransition;
    var units := ItemUnits(shop.orders[k].items, p);
    ReopenedRow(shop.products, shop.orders[k].items, Restock(shop.products, shop.orders[k].items), p, units);
  }

  /**
   * One update of a parcel: it gives each listing the order's units when it cancels the order, and
   * touches no listing otherwise.
   */
  lemma {:induction false} ParcelUpdateRestocks(s: ShopSystem, k: nat, userId: UserId, expected: ShipmentStatus,
      next: ShipmentStatus, p: ProductId)
    requires Books(s) && k < |s.shop.orders| && p in s.shop.products
    ensures
      var after := Next(s, UpdateShipment(k, userId, expected, next)).shop;
      && p in after.products && k < |after.orders|
      && after.products[p].stockQty == s.shop.products[p].stockQty
           + (if s.shop.orders[k].status == PAID && after.orders[k].status == CANCELLED
               then ItemUnits(s.shop.orders[k].items, p) else 0)
      && (s.shop.orders[k].status == after.orders[k].status ==> after.products == s.shop.products)
  {
    hide Books, Next, ShipmentStep, ItemUnits, PositiveItems, ParcelMoved;
    ShipmentIs(s, k, userId, expected, next);
    ParcelStatus(s, k);
    ShipmentShape(s.shop, k, userId, expected, next);
    var r := ShipmentStep(s.shop, k, userId, expected, next);
    if r.Some? {
      OnlyPaidMoves(s.shop, k, next, r.value);
      ParcelRestocks(s.shop, k, next, r.value, p);
    }
  }

  /** The update that cancels an order gives every listing back exactly that order's units, and none can do so twice. */
  lemma {:induction false} CancellingRestocksOnce(s: ShopSystem, k: nat, userId: UserId, expected: ShipmentStatus,
      next: ShipmentStatus, p: ProductId, later: seq<Action>)
    requires Books(s) && k < |s.shop.orders| && p in s.shop.products && s.shop.orders[k].status == PAID
    requires
      var after := Next(s, UpdateShipment(k, userId, expected, next));
      k < |after.shop.orders| && after.shop.orders[k].status == CANCELLED
    ensures
      var after := Next(s, UpdateShipment(k, userId, expected, next));
      && p in after.shop.products && k < |Run(after, later).shop.orders|
      && after.shop.products[p].stockQty == s.shop.products[p].stockQty + ItemUnits(s.shop.orders[k].items, p)
      && Run(after, later).shop.orders[k] == after.shop.orders[k]
      && var again := Next(Run(after, later), UpdateShipment(k, userId, expected, next)).shop;
         again.products == Run(after, later).shop.products
  {
    var action := UpdateShipment(k, userId, expected, next);
    var after := Next(s, action);
    hide Books, Next, ItemUnits, WritesFor, Run, SameReceipt, Grows;
    NextKeeps(s, action);
    ParcelUpdateRestocks(s, k, userId, expected, next, p);
    ReceiptsAreFinal(after, later, k);
    RunKeeps(after, later);
    NoSecondRestock(Run(after, later), k, userId, expected, next);
  }

  lemma {:induction false} ParcelStatus(s: ShopSystem, k: nat)
    requires Books(s) && k < |s.shop.orders|
    ensures s.shop.orders[k].status == CANCELLED <==> s.shop.orders[k].shipment == SH_CANCELLED
    ensures PositiveItems(s.shop.orders[k].items)
  {
    hide SessionOk, RowsOk, EditsOk, LotsOnce, PaymentsOnce, Baskets, Known, OffersApart, PositiveItems, ItemOk;
    PositiveOrders(s.shop);
    assert OrderOk(s.shop, s.shop.orders[k]);
  }

  lemma {:induction false} NoSecondRestock(s: ShopSystem, k: nat, userId: UserId, expected: ShipmentStatus,
      next: ShipmentStatus)
    requires Books(s) && k < |s.shop.orders| && s.shop.orders[k].status == CANCELLED
    ensures Next(s, UpdateShipment(k, userId, expected, next)) == s
  {
    hide Books, Restock, Reopen, ItemProducts;
    ParcelStatus(s, k);
    ShipmentShape(s.shop, k, userId, expected, next);
    hide ShipmentStep;
  }

  // ---- Lots ----

  /**
   * Over all orders, cancelled ones too, a lot is in at most one item: one unit, bought from its
   * seller by its winner at its sold price.
   */
  lemma {:induction false} LotIsPaidAtMostOnce(s: ShopSystem, a: AuctionId, k: nat, i: nat)
    requires Reachable(s) && LotAt(s.shop.orders, k, i, a)
    ensures forall l: nat, j: nat | LotAt(s.shop.orders, l, j, a) :: l == k && j == i
    ensures
      var order := s.shop.orders[k];
      && a in s.shop.sold
      && s.shop.sold[a] == WonLot(order.sellerId, order.buyerId, order.items[i].unitPrice)
      && order.items[i].quantity == 1
  {
    ReachableIsGood(s);
    GoodOrder(s, k);
    assert ItemOk(s.shop, s.shop.orders[k].sellerId, s.shop.orders[k].buyerId, s.shop.orders[k].items[i]);
    hide SessionOk, RowsOk, EditsOk, OrdersOk, PaymentsOnce, Baskets, Known, OffersApart, Reachable, OrderOk;
  }

  // ---- Payments ----

  predicate AskedProvider(stage: Stage) {
    stage.Charged? || stage.Ordered? || stage.Declined? || stage.LostAfterCharge?
  }

  /** A session that asked the provider has one payment row, of the sum of its lines; one that did not has none. */
  lemma {:induction false} OnePaymentPerSession(s: ShopSystem, x: SessionId)
    requires Reachable(s) && x in s.sessions
    ensures
      var stage := s.sessions[x].stage;
      && (!AskedProvider(stage) ==> NoPayment(s.shop, x))
      && (AskedProvider(stage) ==>
            && PaidBy(s.shop, x, stage.lines, stage.payment, !stage.Declined?)
            && forall k | 0 <= k < |s.shop.payments| && s.shop.payments[k].sessionId == x :: k == stage.payment)
  {
    GoodSession(s, x);
    hide Reachable, LinesOk, NoOrders, OrderedAs, SumBy, OfferSpent;
  }

  /** What the orders of a session add up to. */
  function SessionTotal(orders: seq<Order>, x: SessionId): int {
    if orders == [] then 0
    else SessionTotal(orders[..|orders| - 1], x) + if orders[|orders| - 1].sessionId == x
        then orders[|orders| - 1].subtotal else 0
  }

  /** Unit price times quantity, over every item of every order of a session. */
  function SessionValue(orders: seq<Order>, x: SessionId): int {
    if orders == [] then 0
    else SessionValue(orders[..|orders| - 1], x) + if orders[|orders| - 1].sessionId == x
        then ItemsValue(orders[|orders| - 1].items) else 0
  }

  lemma {:induction false} TotalIsValue(orders: seq<Order>, x: SessionId)
    requires forall k | 0 <= k < |orders| :: orders[k].subtotal == ItemsValue(orders[k].items)
    ensures SessionTotal(orders, x) == SessionValue(orders, x)
    decreases |orders|
  {
    hide ItemsValue;
    if orders != [] { TotalIsValue(orders[..|orders| - 1], x); }
  }

  lemma {:induction false} NoOrdersNoTotal(orders: seq<Order>, x: SessionId)
    requires forall k | 0 <= k < |orders| :: orders[k].sessionId != x
    ensures SessionTotal(orders, x) == 0
    decreases |orders|
  {
    if orders != [] { NoOrdersNoTotal(orders[..|orders| - 1], x); }
  }

  lemma {:induction false} TotalOfGroups(orders: seq<Order>, x: SessionId, first: nat, groups: seq<Group>)
    requires first + |groups| <= |orders|
    requires forall k | 0 <= k < |orders| :: orders[k].sessionId == x <==> first <= k < first + |groups|
    requires forall k | first <= k < first + |groups| ::
        orders[k].subtotal == SumBy(groups[k - first].lines, Subtotals())
    ensures SessionTotal(orders, x) == GroupSum(groups, Subtotals())
    decreases |orders|
  {
    hide SumBy;
    var last := |orders| - 1;
    if groups == [] {
      NoOrdersNoTotal(orders, x);
    } else if first + |groups| < |orders| {
      TotalOfGroups(orders[..last], x, first, groups);
    } else {
      TotalOfGroups(orders[..last], x, first, groups[..|groups| - 1]);
    }
  }

  lemma {:induction false} OrderedTotal(shop: Shop, x: SessionId, buyerId: UserId, lines: seq<Line>, payment: nat,
      first: nat)
    requires OrderedAs(shop, x, buyerId, lines, payment, first)
    ensures SessionTotal(shop.orders, x) == SumBy(lines, Subtotals())
  {
    hide SumBy, SessionTotal, GroupBySeller, GroupSum;
    var groups := GroupBySeller(lines);
    forall k | first <= k < first + |groups|
      ensures shop.orders[k].sessionId == x && shop.orders[k].subtotal == SumBy(groups[k - first].lines, Subtotals())
    {
      assert SameReceipt(shop.orders[first + (k - first)], OrderOf(x, buyerId, payment, groups[k - first]));
    }
    TotalOfGroups(shop.orders, x, first, groups);
    GroupingKeepsSums(lines, Subtotals());
  }

  lemma {:induction false} TotalsAreValues(s: ShopSystem, x: SessionId)
    requires Reachable(s)
    ensures SessionTotal(s.shop.orders, x) == SessionValue(s.shop.orders, x)
  {
    hide Reachable, ItemsValue, SessionTotal, SessionValue, ItemOk, ReadParcel;
    forall k | 0 <= k < |s.shop.orders|
      ensures s.shop.orders[k].subtotal == ItemsValue(s.shop.orders[k].items)
    {
      GoodOrder(s, k);
    }
    TotalIsValue(s.shop.orders, x);
  }

  /**
   * All or nothing: a session has orders only if its payment succeeded, then one
   * for each seller of its lines and no other; and what was charged, the order
   * subtotals, and the unit prices times quantities are the same sum.
   */
  lemma {:induction false} ChargedIsOrdered(s: ShopSystem, x: SessionId)
    requires Reachable(s) && x in s.sessions
    ensures
      var stage := s.sessions[x].stage;
      && (!stage.Ordered? ==> NoOrders(s.shop, x))
      && (stage.Ordered? ==>
            && PaidBy(s.shop, x, stage.lines, stage.payment, true)
            && OrderedAs(s.shop, x, s.sessions[x].buyerId, stage.lines, stage.payment, stage.first)
            && Partitioned(GroupBySeller(stage.lines), stage.lines)
            && s.shop.payments[stage.payment].charged == SessionTotal(s.shop.orders, x)
                == SessionValue(s.shop.orders, x))
  {
    var stage := s.sessions[x].stage;
    GoodSession(s, x);
    hide Reachable, LinesOk, NoOrders, SumBy, SessionTotal, SessionValue, GroupBySeller, Partitioned, OrderedAs,
        OfferSpent, NoPayment, PaymentsOnce;
    if stage.Ordered? {
      GroupingPartitions(stage.lines);
      OrderedTotal(s.shop, x, s.sessions[x].buyerId, stage.lines, stage.payment, stage.first);
      TotalsAreValues(s, x);
    }
  }

  lemma {:induction false} OrderedHasOrders(s: ShopSystem, k: nat)
    requires Reachable(s) && k < |s.shop.orders|
    ensures
      var x := s.shop.orders[k].sessionId;
      && x in s.sessions && s.sessions[x].stage.Ordered?
      && var stage := s.sessions[x].stage;
      && OrderedAs(s.shop, x, s.sessions[x].buyerId, stage.lines, stage.payment, stage.first)
      && stage.first <= k < stage.first + |GroupBySeller(stage.lines)|
      && LinesOk(s.shop, s.sessions[x], stage.lines)
  {
    hide Reachable, OrderOk, PaidBy, NoPayment, OfferSpent, LinesOk, SumBy, GroupBySeller, SameReceipt, PaymentsOnce;
    GoodOrder(s, k);
    GoodSession(s, s.shop.orders[k].sessionId);
  }

  lemma {:induction false} OrderInGroup(s: ShopSystem, k: nat)
    requires Reachable(s) && k < |s.shop.orders|
    ensures
      var x := s.shop.orders[k].sessionId;
      && x in s.sessions && s.sessions[x].stage.Ordered?
      && var stage := s.sessions[x].stage;
      && stage.first <= k < stage.first + |GroupBySeller(stage.lines)|
      && SameReceipt(s.shop.orders[k],
          OrderOf(x, s.sessions[x].buyerId, stage.payment, GroupBySeller(stage.lines)[k - stage.first]))
  {
    hide Reachable, LinesOk, GroupBySeller, SameReceipt, OrderOf;
    OrderedHasOrders(s, k);
    var stage := s.sessions[s.shop.orders[k].sessionId].stage;
    assert s.shop.orders[stage.first + (k - stage.first)] == s.shop.orders[k];
  }

  /** Two different orders of one session are for different sellers. */
  lemma {:induction false} OneOrderPerSeller(s: ShopSystem, k: nat, l: nat)
    requires Reachable(s) && k < l < |s.shop.orders| && s.shop.orders[k].sessionId == s.shop.orders[l].sessionId
    ensures s.shop.orders[k].sellerId != s.shop.orders[l].sellerId
  {
    hide Reachable, GroupBySeller, LinesOf, ItemsOf, SumBy;
    OrderInGroup(s, k);
    OrderInGroup(s, l);
    GroupingPartitions(s.sessions[s.shop.orders[k].sessionId].stage.lines);
  }

  /**
   * What an order is, column by column: its session's buyer and payment, its seller, and that seller's
   * lines as items.
   */
  lemma {:induction false} OrderIsItsLines(s: ShopSystem, k: nat)
    requires Reachable(s) && k < |s.shop.orders|
    ensures
      var order := s.shop.orders[k];
      var x := order.sessionId;
      && x in s.sessions && s.sessions[x].stage.Ordered?
      && order.buyerId == s.sessions[x].buyerId && order.payment == s.sessions[x].stage.payment
      && order.subtotal == ItemsValue(order.items)
      && var own := LinesOf(s.sessions[x].stage.lines, order.sellerId);
      && |order.items| == |own|
      && forall i | 0 <= i < |own| ::
           && order.items[i].productId == own[i].productId && order.items[i].auctionId == own[i].auctionId
           && order.items[i].quantity == own[i].quantity && order.items[i].unitPrice == own[i].unitPrice
           && own[i] in s.sessions[x].stage.lines && own[i].sellerId == order.sellerId
  {
    hide Reachable, GroupBySeller, LinesOf, SumBy, ItemsValue, ReadParcel, ItemOk;
    OrderInGroup(s, k);
    GoodOrder(s, k);
    var lines := s.sessions[s.shop.orders[k].sessionId].stage.lines;
    GroupingPartitions(lines);
    LinesOfMembers(lines, s.shop.orders[k].sellerId);
  }

  // ---- Offers ----

  lemma {:induction false} OneLineOneGroup(line: Line)
    ensures GroupBySeller([line]) == [Group(line.sellerId, [line])]
  {
    assert [line][..0] == [];
  }

  ghost predicate ForOffer(s: ShopSystem, o: OfferId, k: nat) {
    k < |s.shop.orders| && s.shop.orders[k].sessionId in s.sessions
        && s.sessions[s.shop.orders[k].sessionId].offer == Some(o)
  }

  lemma {:induction false} OfferOrder(s: ShopSystem, o: OfferId, k: nat)
    requires Reachable(s) && ForOffer(s, o, k)
    ensures
      && s.sessions[s.shop.orders[k].sessionId].stage.Ordered?
          && k == s.sessions[s.shop.orders[k].sessionId].stage.first
      && o in s.shop.offers && s.shop.offers[o].accepted
      && s.shop.orders[k].buyerId == s.shop.offers[o].buyerId
      && s.shop.orders[k].items
          == [OrderItem(Some(s.shop.offers[o].productId), None, s.shop.offers[o].quantity, s.shop.offers[o].amount)]
  {
    var x := s.shop.orders[k].sessionId;
    hide Reachable, GroupBySeller, SumBy, OrderedAs, SameReceipt, LinesOk, OrderOf;
    OrderedHasOrders(s, k);
    OrderInGroup(s, k);
    var stage := s.sessions[x].stage;
    var lines := stage.lines;
    OfferLine(s.shop, s.sessions[x], lines);
    OneLineOneGroup(lines[0]);
    OneLineOrder(x, s.sessions[x].buyerId, stage.payment, lines[0], s.shop.orders[k]);
  }

  lemma {:induction false} OfferLine(shop: Shop, session: Session, lines: seq<Line>)
    requires LinesOk(shop, session, lines) && session.offer.Some?
    ensures session.offer.value in shop.offers && shop.offers[session.offer.value].accepted
    ensures
      var offer := shop.offers[session.offer.value];
      && |lines| == 1 && lines == [lines[0]]
      && offer.buyerId == session.buyerId
      && lines[0].unitPrice == offer.amount && lines[0].quantity == offer.quantity
      && lines[0].productId == Some(offer.productId) && lines[0].auctionId.None?
  {
    assert LineOk(shop, session.buyerId, lines[0]);
  }

  lemma {:induction false} OneLineOrder(x: SessionId, buyerId: UserId, payment: nat, line: Line, order: Order)
    requires SameReceipt(order, OrderOf(x, buyerId, payment, Group(line.sellerId, [line])))
    ensures order.buyerId == buyerId
        && order.items == [OrderItem(line.productId, line.auctionId, line.quantity, line.unitPrice)]
  {
    hide SumBy;
  }

  /** An offer is redeemed by at most one session, and once redeemed it never can be again. */
  lemma {:induction false} OfferIsRedeemedOnce(s: ShopSystem, x: SessionId, o: OfferId, id: SessionId,
      buyerId: UserId, now: nat)
    requires Reachable(s) && x in s.sessions && s.sessions[x].offer == Some(o)
    ensures forall y | y in s.sessions && s.sessions[y].offer == Some(o) :: y == x
    ensures Next(s, RedeemOffer(id, buyerId, o, now)) == s
  {
    ReachableIsGood(s);
    assert SessionOk(s.shop, x, s.sessions[x]);
    hide Reachable, RowsOk, EditsOk, OrdersOk, LotsOnce, PaymentsOnce, Baskets, Known, LinesOk, PaidBy, NoOrders,
        NoPayment, OrderedAs;
  }

  /** An accepted offer ends in at most one order, of its own buyer, at its own price and quantity. */
  lemma {:induction false} OfferBuysAtMostOnce(s: ShopSystem, o: OfferId, k: nat)
    requires Reachable(s) && ForOffer(s, o, k)
    ensures o in s.shop.offers && s.shop.offers[o].accepted
    ensures s.shop.orders[k].buyerId == s.shop.offers[o].buyerId
    ensures s.shop.orders[k].items
        == [OrderItem(Some(s.shop.offers[o].productId), None, s.shop.offers[o].quantity, s.shop.offers[o].amount)]
    ensures forall l: nat | ForOffer(s, o, l) :: l == k
  {
    hide Reachable;
    OfferOrder(s, o, k);
    var x := s.shop.orders[k].sessionId;
    forall l: nat | ForOffer(s, o, l)
      ensures l == k
    {
      OfferOrder(s, o, l);
      OfferIsRedeemedOnce(s, x, o, 0, 0, 0);
    }
  }

  /** The agreed prices a buyer is shown as still payable. */
  function PayableOffers(shop: Shop, buyerId: UserId, now: nat): set<OfferId> {
    set o | o in shop.offers && shop.offers[o].buyerId == buyerId && shop.offers[o].accepted
            && shop.offers[o].expiresAt.Some? && shop.offers[o].expiresAt.value > now
            && shop.offers[o].productId in shop.products && shop.products[shop.offers[o].productId].status == ACTIVE
  }

  /**
   * What is shown as payable can be redeemed at that instant; what a session redeemed is never shown
   * again, whatever happens in between.
   */
  lemma {:induction false} PayableMeansRedeemable(s: ShopSystem, buyerId: UserId, o: OfferId, now: nat)
    requires Reachable(s)
    ensures o in PayableOffers(s.shop, buyerId, now) <==>
              && ConsumeStep(s.shop, o, now).Some? && s.shop.offers[o].buyerId == buyerId
              && s.shop.offers[o].productId in s.shop.products
              && s.shop.products[s.shop.offers[o].productId].status == ACTIVE
    ensures forall x | x in s.sessions && s.sessions[x].offer == Some(o) :: o !in PayableOffers(s.shop, buyerId, now)
  {
    forall x | x in s.sessions && s.sessions[x].offer == Some(o)
      ensures OfferSpent(s.shop, Some(o))
    {
      GoodSession(s, x);
    }
    hide Reachable;
  }
}
