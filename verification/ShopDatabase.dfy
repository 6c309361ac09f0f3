/**
 * The shop's services as they run: loops over rows and one write after another.
 * Every method is shown to do exactly what its step says, refusals included.
 */
module ShopDatabase {
  import opened Wrappers
  import opened LineTotal
  import opened ShopRules
  import opened ShopSteps
  import opened ShopRuns
  import opened ShopInvariant
  import opened ShopReachable

  // ---- Loops that write nothing ----

  method CollectCheckoutIssues(buyerId: UserId, lines: seq<(CartItem, Product)>) returns (issues: seq<CheckoutIssue>)
    ensures issues == Issues(buyerId, lines)
    ensures issues == [] <==> forall i | 0 <= i < |lines| :: Buyable(buyerId, lines[i].0, lines[i].1)
  {
    issues := [];
    for i := 0 to |lines|
      invariant issues == Issues(buyerId, lines[..i])
    {
      var (item, product) := lines[i];
      assert lines[..i + 1][..i] == lines[..i];
      if product.status != ACTIVE {
        issues := issues + [CheckoutIssue(PRODUCT_UNAVAILABLE, item.productId, None, item.quantity)];
      } else if product.sellerId == buyerId {
        issues := issues + [CheckoutIssue(OWN_LISTING, item.productId, None, item.quantity)];
      } else if item.quantity > product.stockQty {
        issues := issues + [CheckoutIssue(INSUFFICIENT_STOCK, item.productId, Some(product.stockQty), item.quantity)];
      }
    }
    assert lines[..|lines|] == lines;
    NoIssuesMeansBuyable(buyerId, lines);
  }

  method GroupLinesBySeller(lines: seq<Line>) returns (bySeller: seq<Group>)
    ensures bySeller == GroupBySeller(lines)
    ensures Partitioned(bySeller, lines)
  {
    hide Partitioned, LinesOf;
    bySeller := [];
    for i := 0 to |lines|
      invariant bySeller == GroupBySeller(lines[..i])
    {
      assert lines[..i + 1][..i] == lines[..i];
      var existing := FindGroup(bySeller, lines[i].sellerId);
      if existing.Some? {
        bySeller := bySeller[existing.value := Group(lines[i].sellerId, bySeller[existing.value].lines + [lines[i]])];
      } else {
        bySeller := bySeller + [Group(lines[i].sellerId, [lines[i]])];
      }
    }
    assert lines[..|lines|] == lines;
    GroupingPartitions(lines);
  }

  method GrandTotal(lines: seq<Line>) returns (total: Satang)
    ensures total == SumBy(lines, Subtotals())
    ensures total == GroupSum(GroupBySeller(lines), Subtotals())
  {
    total := 0;
    for i := 0 to |lines|
      invariant total == SumBy(lines[..i], Subtotals())
    {
      assert lines[..i + 1][..i] == lines[..i];
      total := total + lines[i].subtotal;
    }
    assert lines[..|lines|] == lines;
    GroupingKeepsSums(lines, Subtotals());
  }

  /** Every line at its listing's price as it is now. */
  method PriceLines(shop: Shop, items: seq<CartItemId>) returns (lines: seq<Line>)
    requires forall i | 0 <= i < |items| :: items[i] in shop.cart && shop.cart[items[i]].productId in shop.products
    ensures lines == CartLines(shop, items)
    ensures forall i | 0 <= i < |lines| ::
              var row := shop.cart[items[i]];
              var product := shop.products[row.productId];
              && lines[i].quantity == row.quantity && lines[i].productId == Some(row.productId)
              && PricedBy(lines[i].unitPrice, lines[i].subtotal, product.price, row.quantity, product.rule)
  {
    hide PricedBy;
    lines := [];
    for i := 0 to |items|
      invariant lines == CartLines(shop, items)[..i]
      invariant forall j | 0 <= j < i ::
                  PricedBy(lines[j].unitPrice, lines[j].subtotal, shop.products[shop.cart[items[j]].productId].price,
                           shop.cart[items[j]].quantity, shop.products[shop.cart[items[j]].productId].rule)
    {
      var row := shop.cart[items[i]];
      var product := shop.products[row.productId];
      var total := CalculateLineTotal(product.price, row.quantity, product.rule);
      TotalIsPriced(product.price, row.quantity, product.rule);
      lines := lines + [Line(Some(items[i]), Some(row.productId), None, product.sellerId, row.quantity,
          total.effectiveUnitPrice, total.subtotal)];
    }
    assert lines == CartLines(shop, items);
  }

  // ---- A failed line fails the whole decrement ----

  lemma {:induction false} NoneStaysNone(products: map<ProductId, Product>, lines: seq<Line>, i: nat)
    requires i <= |lines| && DecrementAll(products, lines[..i]).None?
    ensures DecrementAll(products, lines).None?
    decreases |lines|
  {
    if i < |lines| {
      assert lines[..|lines| - 1][..i] == lines[..i];
      NoneStaysNone(products, lines[..|lines| - 1], i);
    } else {
      assert lines[..i] == lines;
    }
  }

  lemma {:induction false} ClashStays(orders: seq<Order>, id: SessionId, buyerId: UserId, payment: nat,
      groups: seq<Group>, i: nat)
    requires i <= |groups| && InsertOrders(orders, id, buyerId, payment, groups[..i]).None?
    ensures InsertOrders(orders, id, buyerId, payment, groups).None?
    decreases |groups|
  {
    hide OrderOf, Clashes;
    if i < |groups| {
      assert groups[..|groups| - 1][..i] == groups[..i];
      ClashStays(orders, id, buyerId, payment, groups[..|groups| - 1], i);
    } else {
      assert groups[..i] == groups;
    }
  }

  // ---- Counting references row by row ----

  function LinesFor(items: seq<OrderItem>, p: ProductId): nat {
    if items == [] then 0
    else LinesFor(items[..|items| - 1], p) + if items[|items| - 1].productId == Some(p) then 1 else 0
  }

  lemma {:induction false} LinesForMeansMentions(items: seq<OrderItem>, p: ProductId)
    ensures LinesFor(items, p) > 0 <==> Mentions(items, p)
    decreases |items|
  {
    if items != [] {
      var rest := items[..|items| - 1];
      LinesForMeansMentions(rest, p);
      MentionsOneMore(rest, items[|items| - 1], p);
      assert items == rest + [items[|items| - 1]];
      hide Mentions;
    }
  }

  lemma {:induction false} NothingReferenced(p: ProductId)
    ensures !Referenced([], p)
  {
  }

  lemma {:induction false} MentionsOneMore(items: seq<OrderItem>, item: OrderItem, p: ProductId)
    ensures Mentions(items + [item], p) <==> Mentions(items, p) || item.productId == Some(p)
  {
    var all := items + [item];
    assert all[|items|] == item;
    assert forall i | 0 <= i < |items| :: all[i] == items[i];
  }

  lemma {:induction false} ReferencedOneMore(orders: seq<Order>, order: Order, p: ProductId)
    ensures Referenced(orders + [order], p) <==>
        Referenced(orders, p) || (order.status != CANCELLED && Mentions(order.items, p))
  {
    hide Mentions;
    var all := orders + [order];
    assert all[|orders|] == order;
    assert forall k | 0 <= k < |orders| :: all[k] == orders[k];
  }

  /** The order lines of this listing in orders not cancelled. */
  method CountLiveLines(orders: seq<Order>, p: ProductId) returns (count: nat)
    ensures count > 0 <==> Referenced(orders, p)
  {
    hide Mentions, Referenced;
    count := 0;
    NothingReferenced(p);
    for k := 0 to |orders|
      invariant count > 0 <==> Referenced(orders[..k], p)
    {
      var lines := if orders[k].status == CANCELLED then 0 else LinesFor(orders[k].items, p);
      count := count + lines;
      LinesForMeansMentions(orders[k].items, p);
      ReferencedOneMore(orders[..k], orders[k], p);
      assert orders[..k + 1] == orders[..k] + [orders[k]];
    }
    assert orders[..|orders|] == orders;
  }

  datatype ListingError = NotFound | NotOwner | Suspended | Removed | NotSuspended | IncompleteRule

  class Database {
    var products: map<ProductId, Product>
    var cart: map<CartItemId, CartItem>
    var offers: map<OfferId, Offer>
    var sold: map<AuctionId, WonLot>
    var orders: seq<Order>
    var payments: seq<Payment>
    /** The checkouts under way, which live in their requests and not in any table. */
    ghost var sessions: map<SessionId, Session>
    ghost var edits: map<EditId, OpenEdit>

    function State(): Shop
      reads this
    {
      Shop(products, cart, offers, sold, orders, payments)
    }

    ghost function Everything(): ShopSystem
      reads this
    {
      ShopSystem(State(), sessions, edits)
    }

    ghost predicate Valid()
      reads this
    {
      Books(Everything())
    }

    constructor ()
      ensures Everything() == EMPTY && Valid()
    {
      products, cart, offers, sold, orders, payments := map[], map[], map[], map[], [], [];
      sessions, edits := map[], map[];
      new;
      EmptyIsFine();
    }

    // ---- Listings ----

    method Create(p: ProductId, sellerId: UserId, price: Satang, stockQty: nat, floor: Option<Satang>,
        rule: QuantityDiscountRule)
      returns (error: Option<ListingError>)
      requires Valid() && p !in products
      modifies this
      ensures Everything() == Next(old(Everything()), Action.Create(p, sellerId, price, stockQty, floor, rule))
      ensures Valid()
      ensures error == if RuleWhole(rule) then None else Some(IncompleteRule)
    {
      hide Books;
      NextKeeps(Everything(), Action.Create(p, sellerId, price, stockQty, floor, rule));
      if rule.minQty.Some? != rule.percent.Some? { return Some(IncompleteRule); }
      products := products[p :=
          Product(sellerId, price, stockQty, if stockQty > 0 then ACTIVE else OUT_OF_STOCK, floor, rule)];
      error := None;
    }

    /** What stops a seller from changing a listing, checked in this order. */
    function SellerRefusal(p: ProductId, sellerId: UserId): (error: Option<ListingError>)
      reads this
      ensures error.None? <==> p in products && products[p].sellerId == sellerId
                               && products[p].status != SUSPENDED && products[p].status != REMOVED
    {
      if p !in products then Some(NotFound)
      else if products[p].sellerId != sellerId then Some(NotOwner)
      else if products[p].status == SUSPENDED then Some(Suspended)
      else if products[p].status == REMOVED then Some(Removed)
      else None
    }

    method Update(p: ProductId, sellerId: UserId, patch: ProductPatch) returns (error: Option<ListingError>)
      requires Valid()
      modifies this
      ensures Everything() == Next(old(Everything()), Action.Update(p, sellerId, patch))
      ensures Valid()
      ensures old(SellerRefusal(p, sellerId)).Some? ==> error == old(SellerRefusal(p, sellerId))
      ensures error.Some? ==> Everything() == old(Everything())
    {
      hide Books;
      NextKeeps(Everything(), Action.Update(p, sellerId, patch));
      error := SellerRefusal(p, sellerId);
      if error.Some? { return; }
      var existing := products[p];
      var merged := PatchedRule(existing.rule, patch);
      if merged.minQty.Some? != merged.percent.Some? { return Some(IncompleteRule); }
      var nextStock := if patch.stockQty.Set? then patch.stockQty.value else existing.stockQty;
      products := products[p := existing.(
        price := Apply(patch.price, existing.price), stockQty := nextStock,
            status := ResolveStatus(existing.status, nextStock),
        negotiationFloor := if patch.negotiationFloor.Set? then Some(patch.negotiationFloor.value)
            else existing.negotiationFloor,
        rule := merged)];
    }

    method UpdateStatus(p: ProductId, sellerId: UserId, resume: bool) returns (error: Option<ListingError>)
      requires Valid()
      modifies this
      ensures Everything() == Next(old(Everything()), Action.UpdateStatus(p, sellerId, resume))
      ensures Valid() && error == old(SellerRefusal(p, sellerId))
    {
      hide Books;
      NextKeeps(Everything(), Action.UpdateStatus(p, sellerId, resume));
      error := SellerRefusal(p, sellerId);
      if error.Some? { return; }
      var next := if !resume then INACTIVE else if products[p].stockQty > 0 then ACTIVE else OUT_OF_STOCK;
      products := products[p := products[p].(status := next)];
    }

    method UpdateStock(p: ProductId, sellerId: UserId, stockQty: nat) returns (error: Option<ListingError>)
      requires Valid()
      modifies this
      ensures Everything() == Next(old(Everything()), Action.UpdateStock(p, sellerId, stockQty))
      ensures Valid() && error == old(SellerRefusal(p, sellerId))
    {
      hide Books;
      NextKeeps(Everything(), Action.UpdateStock(p, sellerId, stockQty));
      error := SellerRefusal(p, sellerId);
      if error.Some? { return; }
      products := products[p :=
          products[p].(stockQty := stockQty, status := ResolveStatus(products[p].status, stockQty))];
    }

    /** Counts the live order lines first: a listing somebody bought is only taken off the shelf. */
    method Remove(p: ProductId, sellerId: UserId) returns (error: Option<ListingError>)
      requires Valid()
      modifies this
      ensures Everything() == Next(old(Everything()), Action.Remove(p, sellerId))
      ensures Valid()
      ensures error.None? ==> p in products && (products[p].status == REMOVED <==> UnitsOut(orders, p) == 0)
    {
      hide Books, UnitsOut;
      NextKeeps(Everything(), Action.Remove(p, sellerId));
      if p !in products { return Some(NotFound); }
      if products[p].sellerId != sellerId { return Some(NotOwner); }
      if products[p].status == SUSPENDED { return Some(Suspended); }
      var referencing := CountReferences(p);
      products := products[p := products[p].(status := if referencing > 0 then INACTIVE else REMOVED)];
      error := None;
    }

    method CountReferences(p: ProductId) returns (count: nat)
      requires Valid()
      ensures count > 0 <==> Referenced(orders, p)
      ensures count > 0 <==> UnitsOut(orders, p) > 0
    {
      PositiveOrders(State());
      ReferencedMeansUnits(orders, p);
      hide Books, UnitsOut, PositiveItems, Referenced;
      count := CountLiveLines(orders, p);
    }

    method Deactivate(p: ProductId) returns (error: Option<ListingError>)
      requires Valid()
      modifies this
      ensures Everything() == Next(old(Everything()), Action.Deactivate(p))
      ensures Valid() && (error.None? ==> p in products && products[p].status == SUSPENDED)
    {
      hide Books;
      NextKeeps(Everything(), Action.Deactivate(p));
      if p !in products { return Some(NotFound); }
      if products[p].status == REMOVED { return Some(Removed); }
      if products[p].status == SUSPENDED { return Some(Suspended); }
      products := products[p := products[p].(status := SUSPENDED)];
      error := None;
    }

    method Reactivate(p: ProductId) returns (error: Option<ListingError>)
      requires Valid()
      modifies this
      ensures Everything() == Next(old(Everything()), Action.Reactivate(p))
      ensures Valid() && (error.None? <==> p in old(products) && old(products)[p].status == SUSPENDED)
    {
      hide Books;
      NextKeeps(Everything(), Action.Reactivate(p));
      if p !in products { return Some(NotFound); }
      if products[p].status == REMOVED { return Some(Removed); }
      if products[p].status != SUSPENDED { return Some(NotSuspended); }
      products := products[p := products[p].(status := if products[p].stockQty > 0 then ACTIVE else OUT_OF_STOCK)];
      error := None;
    }

    // ---- Pricing ----

    /** `items` is what the query for this buyer's lines returned. */
    method PriceCart(id: SessionId, buyerId: UserId, selected: Option<set<CartItemId>>, items: seq<CartItemId>)
        returns (priced: Option<seq<Line>>)
      requires Valid() && id !in sessions && CartRows(State(), buyerId, selected, items)
      modifies this`sessions
      ensures Everything() == Next(old(Everything()), CheckoutCart(id, buyerId, selected, items))
      ensures Valid() && priced == ShopSteps.PriceCart(old(State()), buyerId, selected, items)
      ensures priced.Some? ==>
          && |priced.value| == |items|
          && forall i | 0 <= i < |items| ::
               var row, product := cart[items[i]], products[cart[items[i]].productId];
               PricedBy(priced.value[i].unitPrice, priced.value[i].subtotal, product.price, row.quantity, product.rule)
    {
      hide Books, Issues, CartLine, PricedBy;
      NextKeeps(Everything(), CheckoutCart(id, buyerId, selected, items));
      var issues := CollectCheckoutIssues(buyerId, WithProducts(State(), items));
      if items == [] || (selected.Some? && |items| != |selected.value|) || issues != [] {
        sessions := sessions[id := Session(buyerId, None, Refused)];
        return None;
      }
      var lines := PriceLines(State(), items);
      sessions := sessions[id := Session(buyerId, None, Priced(lines))];
      priced := Some(lines);
    }

    method PriceAuction(id: SessionId, buyerId: UserId, a: AuctionId) returns (priced: Option<seq<Line>>)
      requires Valid() && id !in sessions
      modifies this`sessions
      ensures Everything() == Next(old(Everything()), CheckoutLot(id, buyerId, a))
      ensures Valid() && priced == ShopSteps.PriceAuction(old(State()), buyerId, a)
    {
      hide Books;
      NextKeeps(Everything(), CheckoutLot(id, buyerId, a));
      var paid := IsPaid(a);
      if a !in sold || sold[a].winnerId != buyerId || paid {
        sessions := sessions[id := Session(buyerId, None, Refused)];
        return None;
      }
      var lines := [Line(None, None, Some(a), sold[a].sellerId, 1, sold[a].soldPrice, sold[a].soldPrice)];
      sessions := sessions[id := Session(buyerId, None, Priced(lines))];
      priced := Some(lines);
    }

    method IsPaid(a: AuctionId) returns (paid: bool)
      ensures paid == LotPaid(orders, a)
    {
      paid := false;
      for k := 0 to |orders|
        invariant paid <==> exists l | 0 <= l < k :: HasLot(orders[l].items, a)
      {
        if HasLot(orders[k].items, a) { paid := true; }
      }
    }

    /** Spends the offer before anything else is known about it. */
    method ConsumeAcceptToken(id: SessionId, buyerId: UserId, o: OfferId, now: nat) returns (spent: bool)
      requires Valid() && id !in sessions
      modifies this`offers, this`sessions
      ensures Everything() == Next(old(Everything()), RedeemOffer(id, buyerId, o, now))
      ensures Valid()
      ensures spent <==> ConsumeStep(old(State()), o, now).Some?
      ensures spent ==> ConsumeStep(State(), o, now).None?
    {
      hide Books;
      NextKeeps(Everything(), RedeemOffer(id, buyerId, o, now));
      if o !in offers || !offers[o].accepted || offers[o].expiresAt.None?
          || offers[o].expiresAt.value <= now { return false; }
      offers := offers[o := offers[o].(expiresAt := Some(0))];
      sessions := sessions[id := Session(buyerId, Some(o), Redeemed)];
      spent := true;
    }

    method PriceOffer(id: SessionId, buyerId: UserId, o: OfferId) returns (priced: Option<seq<Line>>)
      requires Valid() && id in sessions && sessions[id] == Session(buyerId, Some(o), Redeemed)
      modifies this`sessions
      ensures Everything() == Next(old(Everything()), PriceRedeemed(id))
      ensures Valid() && priced == ShopSteps.PriceOffer(old(State()), buyerId, o)
    {
      hide Books;
      NextKeeps(Everything(), PriceRedeemed(id));
      priced := None;
      if o in offers && offers[o].buyerId == buyerId {
        var offer := offers[o];
        if offer.productId in products && products[offer.productId].status == ACTIVE
           && products[offer.productId].stockQty >= offer.quantity
        {
          priced := Some([Line(None, Some(offer.productId), None, products[offer.productId].sellerId, offer.quantity,
                               offer.amount, offer.amount * offer.quantity)]);
        }
      }
      sessions := Moved(Everything(), id, if priced.Some? then Priced(priced.value) else Refused);
    }

    // ---- Charging ----

    /** One provider call and one payment row, whatever the answer. */
    method Charge(id: SessionId, lines: seq<Line>) returns (payment: nat, succeeded: bool)
      requires Valid() && id in sessions && sessions[id].stage == Priced(lines)
      modifies this`payments, this`sessions
      ensures Everything() == Next(old(Everything()), Action.Charge(id))
      ensures Valid() && payment == |old(payments)| && |payments| == payment + 1
          && payments[payment].succeeded == succeeded
      ensures succeeded <==> SumBy(lines, Subtotals()) != 66_600
      ensures payments[payment] == Payment(id, succeeded, SumBy(lines, Subtotals()))
    {
      hide Books, SumBy;
      NextKeeps(Everything(), Action.Charge(id));
      var total := GrandTotal(lines);
      payment := |payments|;
      succeeded := total != DECLINE_AMOUNT;
      payments := payments + [Payment(id, succeeded, total)];
      sessions := Moved(Everything(), id, if succeeded then Charged(lines, payment) else Declined(lines, payment));
    }

    // ---- Orders ----

    /** Conditional updates line by line; on the first that misses, the caller's transaction is rolled back. */
    method DecrementStock(lines: seq<Line>) returns (ok: bool)
      modifies this`products
      ensures ok <==> DecrementAll(old(products), lines).Some?
      ensures ok ==> products == MarkSoldOut(DecrementAll(old(products), lines).value, ProductIds(lines))
    {
      hide MarkSoldOut, ProductIds;
      for i := 0 to |lines|
        invariant DecrementAll(old(products), lines[..i]) == Some(products)
      {
        assert lines[..i + 1][..i] == lines[..i];
        var line := lines[i];
        if line.productId.Some? {
          var p := line.productId.value;
          if p !in products || products[p].status != ACTIVE || products[p].stockQty < line.quantity {
            NoneStaysNone(old(products), lines, i + 1);
            return false;
          }
          products := products[p := products[p].(stockQty := products[p].stockQty - line.quantity)];
        }
      }
      assert lines[..|lines|] == lines;
      products := MarkSoldOut(products, ProductIds(lines));
      ok := true;
    }

    /** One insert per seller; a unique index may refuse any of them. */
    method InsertAll(id: SessionId, buyerId: UserId, payment: nat, groups: seq<Group>) returns (ok: bool)
      modifies this`orders
      ensures ok <==> InsertOrders(old(orders), id, buyerId, payment, groups).Some?
      ensures ok ==> InsertOrders(old(orders), id, buyerId, payment, groups) == Some(orders)
    {
      hide OrderOf, Clashes;
      for i := 0 to |groups|
        invariant InsertOrders(old(orders), id, buyerId, payment, groups[..i]) == Some(orders)
      {
        assert groups[..i + 1][..i] == groups[..i];
        var order := OrderOf(id, buyerId, payment, groups[i]);
        if Clashes(orders, order) {
          ClashStays(old(orders), id, buyerId, payment, groups, i + 1);
          return false;
        }
        orders := orders + [order];
      }
      assert groups[..|groups|] == groups;
      ok := true;
    }

    /** Everything or nothing: on any failure the tables are as they were and the charge stays on record. */
    method RunOrderTransaction(id: SessionId, buyerId: UserId, lines: seq<Line>, payment: nat)
        returns (error: Option<WriteError>)
      requires Valid() && id in sessions && sessions[id].stage == Charged(lines, payment)
          && sessions[id].buyerId == buyerId
      modifies this
      ensures Everything() == Next(old(Everything()), WriteOrders(id))
      ensures Valid()
      ensures error.Some? <==> WriteOrdersStep(old(State()), id, buyerId, payment, lines).Err?
      ensures error.Some? ==>
          State() == old(State()) && WriteOrdersStep(old(State()), id, buyerId, payment, lines) == Err(error.value)
    {
      hide Books, InsertOrders, DecrementAll, MarkSoldOut, ProductIds, GroupBySeller, Partitioned;
      NextKeeps(Everything(), WriteOrders(id));
      var ordersBefore, productsBefore := orders, products;
      var bySeller := GroupLinesBySeller(lines);
      var inserted := InsertAll(id, buyerId, payment, bySeller);
      if !inserted {
        orders := ordersBefore;
        sessions := Moved(Everything(), id, LostAfterCharge(lines, payment));
        return Some(UniqueViolated);
      }
      var taken := DecrementStock(lines);
      if !taken {
        orders, products := ordersBefore, productsBefore;
        sessions := Moved(Everything(), id, LostAfterCharge(lines, payment));
        return Some(StockLost);
      }
      cart := cart - CartIds(lines);
      sessions := Moved(Everything(), id, Ordered(lines, payment, |ordersBefore|));
      error := None;
    }

    // ---- Parcels ----

    /** `expected` is what the request read and judged; the write is guarded on it. */
    method UpdateShipment(k: nat, userId: UserId, expected: ShipmentStatus, next: ShipmentStatus) returns (ok: bool)
      requires Valid()
      modifies this
      ensures Everything() == Next(old(Everything()), Action.UpdateShipment(k, userId, expected, next))
      ensures Valid()
      ensures ok <==>
          && k < |old(orders)| && old(orders)[k].sellerId == userId && old(orders)[k].shipment == expected
          && (|| (expected == SH_PROCESSING && next == SH_SHIPPED)
              || (expected == SH_PROCESSING && next == SH_CANCELLED)
              || (expected == SH_SHIPPED && next == SH_IN_TRANSIT)
              || (expected == SH_IN_TRANSIT && next == SH_DELIVERED))
    {
      hide Books, Restock, Reopen, ItemProducts;
      NextKeeps(Everything(), Action.UpdateShipment(k, userId, expected, next));
      if k >= |orders| || orders[k].sellerId != userId || !CanTransition(expected, next) { return false; }
      if orders[k].shipment != expected { return false; }
      orders := orders[k := orders[k].(shipment := next)];
      orders := orders[k := orders[k].(shipmentEvents := orders[k].shipmentEvents + [next])];
      if next == SH_CANCELLED {
        CancelOrder(k);
      }
      ok := true;
    }

    /** Puts the goods back line by line, then reopens what was sold out. */
    method CancelOrder(k: nat)
      requires k < |orders|
      modifies this`orders, this`products
      ensures orders == old(orders)[k := old(orders)[k].(status := CANCELLED)]
      ensures products == Reopen(Restock(old(products), old(orders)[k].items), ItemProducts(old(orders)[k].items))
    {
      hide Reopen, ItemProducts;
      orders := orders[k := orders[k].(status := CANCELLED)];
      var items := orders[k].items;
      for i := 0 to |items|
        invariant orders == old(orders)[k := old(orders)[k].(status := CANCELLED)]
        invariant products == Restock(old(products), items[..i])
      {
        assert items[..i + 1][..i] == items[..i];
        if items[i].productId.Some? && items[i].productId.value in products {
          var p := items[i].productId.value;
          products := products[p := products[p].(stockQty := products[p].stockQty + items[i].quantity)];
        }
      }
      assert items[..|items|] == items;
      products := Reopen(products, ItemProducts(items));
    }
  }
}
