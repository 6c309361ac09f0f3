/** Writing the orders of a paid session, and cancelling one: what each keeps. */
module ShopCommit {
  import opened Wrappers
  import opened ShopRules
  import opened ShopSteps
  import opened ShopRuns
  import opened ShopInvariant

  // ---- Taking the stock ----

  /** Every listing of the lines was ACTIVE, and lost exactly the units its lines ask for. */
  ghost predicate Taken(before: map<ProductId, Product>, lines: seq<Line>, after: map<ProductId, Product>) {
    && after.Keys == before.Keys
    && (forall p | p in before ::
          && after[p] == before[p].(stockQty := before[p].stockQty - SumBy(lines, UnitsFor(p)))
          && (SumBy(lines, UnitsFor(p)) > 0 ==> before[p].status == ACTIVE)
          && (before[p].stockQty >= 0 ==> after[p].stockQty >= 0))
  }

  ghost predicate PositiveLines(lines: seq<Line>) {
    forall i | 0 <= i < |lines| :: lines[i].quantity >= 1
  }

  lemma {:induction false} SumOfUnits(lines: seq<Line>, p: ProductId)
    requires PositiveLines(lines)
    ensures SumBy(lines, UnitsFor(p)) >= 0
    ensures SumBy(lines, UnitsFor(p)) > 0 <==> p in ProductIds(lines)
    decreases |lines|
  {
    if lines != [] {
      var last := |lines| - 1;
      SumOfUnits(lines[..last], p);
      if p in ProductIds(lines) {
        var i :| 0 <= i < |lines| && lines[i].productId.Some? && lines[i].productId.value == p;
        assert i < last ==> lines[..last][i].productId == Some(p);
      }
      if p in ProductIds(lines[..last]) {
        var i :| 0 <= i < last && lines[..last][i].productId.Some? && lines[..last][i].productId.value == p;
        assert lines[i].productId == Some(p);
      }
    }
  }

  lemma {:induction false} DecrementTakes(products: map<ProductId, Product>, lines: seq<Line>)
    requires PositiveLines(lines) && DecrementAll(products, lines).Some?
    ensures Taken(products, lines, DecrementAll(products, lines).value)
    decreases |lines|
  {
    if lines != [] {
      hide Taken;
      var last := |lines| - 1;
      DecrementTakes(products, lines[..last]);
      var mid := DecrementAll(products, lines[..last]).value;
      assert lines == lines[..last] + [lines[last]];
      TakeOneMore(products, lines[..last], mid, lines[last]);
    } else {
      assert Taken(products, lines, products);
    }
  }

  lemma {:induction false} TakeOneMore(products: map<ProductId, Product>, lines: seq<Line>,
      mid: map<ProductId, Product>, line: Line)
    requires Taken(products, lines, mid) && DecrementOne(mid, line).Some?
    ensures Taken(products, lines + [line], DecrementOne(mid, line).value)
  {
    var after := DecrementOne(mid, line).value;
    forall p | p in products
      ensures
        && after[p] == products[p].(stockQty := products[p].stockQty - SumBy(lines + [line], UnitsFor(p)))
        && (SumBy(lines + [line], UnitsFor(p)) > 0 ==> products[p].status == ACTIVE)
        && (products[p].stockQty >= 0 ==> after[p].stockQty >= 0)
    {
      SumByAppend(lines, line, UnitsFor(p));
    }
  }

  /** One listing, after its units were taken and it was marked sold out if nothing is left. */
  lemma {:induction false} RowAfter(before: map<ProductId, Product>, lines: seq<Line>, taken: map<ProductId, Product>,
      p: ProductId, units: int)
    requires PositiveLines(lines) && Taken(before, lines, taken) && p in before
    ensures UnitsMoved(before[p], MarkSoldOut(taken, ProductIds(lines))[p], units, units + SumBy(lines, UnitsFor(p)))
  {
    SumOfUnits(lines, p);
    hide SumBy, ProductIds, RuleWhole;
  }

  // ---- Adding the orders ----

  ghost predicate Appended(orders: seq<Order>, id: SessionId, buyerId: UserId, payment: nat, groups: seq<Group>,
      all: seq<Order>) {
    && |all| == |orders| + |groups|
    && orders <= all
    && (forall g | 0 <= g < |groups| :: all[|orders| + g] == OrderOf(id, buyerId, payment, groups[g]))
  }

  lemma {:induction false} InsertAppends(orders: seq<Order>, id: SessionId, buyerId: UserId, payment: nat,
      groups: seq<Group>)
    requires InsertOrders(orders, id, buyerId, payment, groups).Some?
    ensures Appended(orders, id, buyerId, payment, groups, InsertOrders(orders, id, buyerId, payment, groups).value)
    decreases |groups|
  {
    hide OrderOf, Clashes;
    if groups != [] {
      InsertAppends(orders, id, buyerId, payment, groups[..|groups| - 1]);
    }
  }

  lemma {:induction false} LotAdded(orders: seq<Order>, order: Order)
    requires LotsOnce(orders) && !Clashes(orders, order)
    ensures LotsOnce(orders + [order])
  {
    var all := orders + [order];
    forall a: AuctionId, k: nat, i: nat, l: nat, j: nat | LotAt(all, k, i, a) && LotAt(all, l, j, a)
      ensures k == l && i == j
    {
      assert k < |orders| ==> LotAt(orders, k, i, a) && HasLot(orders[k].items, a) && LotPaid(orders, a);
      assert l < |orders| ==> LotAt(orders, l, j, a) && HasLot(orders[l].items, a) && LotPaid(orders, a);
      assert k == |orders| ==> order.items[i].auctionId == Some(a);
      assert l == |orders| ==> order.items[j].auctionId == Some(a);
      assert order.items == all[|orders|].items;
    }
  }

  lemma {:induction false} LotsStayOnce(orders: seq<Order>, id: SessionId, buyerId: UserId, payment: nat,
      groups: seq<Group>)
    requires LotsOnce(orders) && InsertOrders(orders, id, buyerId, payment, groups).Some?
    ensures LotsOnce(InsertOrders(orders, id, buyerId, payment, groups).value)
    decreases |groups|
  {
    hide LotsOnce, OrderOf, Clashes;
    if groups != [] {
      LotsStayOnce(orders, id, buyerId, payment, groups[..|groups| - 1]);
      LotAdded(InsertOrders(orders, id, buyerId, payment, groups[..|groups| - 1]).value,
               OrderOf(id, buyerId, payment, groups[|groups| - 1]));
    }
  }

  lemma {:induction false} InsertedUnits(orders: seq<Order>, id: SessionId, buyerId: UserId, payment: nat,
      groups: seq<Group>, p: ProductId)
    requires InsertOrders(orders, id, buyerId, payment, groups).Some?
    ensures UnitsOut(InsertOrders(orders, id, buyerId, payment, groups).value, p)
        == UnitsOut(orders, p) + GroupSum(groups, UnitsFor(p))
    decreases |groups|
  {
    hide Clashes, UnitsOut, ItemsOf;
    if groups != [] {
      var last := |groups| - 1;
      InsertedUnits(orders, id, buyerId, payment, groups[..last], p);
      UnitsOutAppend(InsertOrders(orders, id, buyerId, payment, groups[..last]).value,
          OrderOf(id, buyerId, payment, groups[last]), p);
      ItemsCarryTheLines(groups[last].lines, p);
    }
  }

  /** The seller's own lines, and each of them is one of the lines. */
  lemma {:induction false} LinesOfMembers(lines: seq<Line>, sellerId: UserId)
    ensures forall i | 0 <= i < |LinesOf(lines, sellerId)| ::
              LinesOf(lines, sellerId)[i] in lines && LinesOf(lines, sellerId)[i].sellerId == sellerId
    decreases |lines|
  {
    if lines != [] {
      LinesOfMembers(lines[..|lines| - 1], sellerId);
    }
  }

  ghost predicate AllLinesOk(shop: Shop, buyerId: UserId, lines: seq<Line>) {
    forall i | 0 <= i < |lines| :: LineOk(shop, buyerId, lines[i])
  }

  lemma {:induction false} GroupLinesOk(shop: Shop, buyerId: UserId, lines: seq<Line>, g: nat)
    requires AllLinesOk(shop, buyerId, lines) && g < |GroupBySeller(lines)|
    ensures
      var group := GroupBySeller(lines)[g];
      AllLinesOk(shop, buyerId, group.lines) && forall i | 0 <= i < |group.lines| ::
          group.lines[i].sellerId == group.sellerId
  {
    GroupingPartitions(lines);
    var group := GroupBySeller(lines)[g];
    assert group.lines == LinesOf(lines, group.sellerId);
    LinesOfMembers(lines, group.sellerId);
    hide LineOk, GroupBySeller, LinesOf;
    forall i | 0 <= i < |group.lines|
      ensures LineOk(shop, buyerId, group.lines[i])
    {
      assert group.lines[i] in lines;
    }
  }

  lemma {:induction false} GroupOrderOk(shop: Shop, id: SessionId, buyerId: UserId, payment: nat, group: Group)
    requires AllLinesOk(shop, buyerId, group.lines)
    requires forall i | 0 <= i < |group.lines| :: group.lines[i].sellerId == group.sellerId
    ensures OrderOk(shop, OrderOf(id, buyerId, payment, group))
  {
    var order := OrderOf(id, buyerId, payment, group);
    assert forall i | 0 <= i < |group.lines| :: LineOk(shop, buyerId, group.lines[i]);
    ItemsCarryTheLines(group.lines, 0);
    hide ItemsValue, SumBy;
    assert ReadParcel([SH_PROCESSING]) == Some(SH_PROCESSING);
    forall i | 0 <= i < |order.items|
      ensures ItemOk(shop, group.sellerId, buyerId, order.items[i])
    {
      assert LineOk(shop, buyerId, group.lines[i]);
    }
  }

  lemma {:induction false} OrderSurvives(before: Shop, after: Shop, except: set<SessionId>, order: Order)
    requires Grows(before, after, except) && OrderOk(before, order)
    ensures OrderOk(after, order)
  {
    hide SameReceipt, ReadParcel, ItemsValue, SameOffer;
    forall i | 0 <= i < |order.items|
      ensures ItemOk(after, order.sellerId, order.buyerId, order.items[i])
    {
      assert ItemOk(before, order.sellerId, order.buyerId, order.items[i]);
    }
  }

  // ---- A commit, part by part ----

  /** The commit of session `id` went through, from `shop` to `after`. */
  ghost predicate Committed(shop: Shop, id: SessionId, buyerId: UserId, payment: nat, lines: seq<Line>, after: Shop) {
    WriteOrdersStep(shop, id, buyerId, payment, lines) == Ok(after)
  }

  lemma {:induction false} CommitShape(shop: Shop, id: SessionId, buyerId: UserId, payment: nat, lines: seq<Line>,
      after: Shop)
    requires Committed(shop, id, buyerId, payment, lines, after)
    ensures InsertOrders(shop.orders, id, buyerId, payment, GroupBySeller(lines)) == Some(after.orders)
    ensures DecrementAll(shop.products, lines).Some?
    ensures after.products == MarkSoldOut(DecrementAll(shop.products, lines).value, ProductIds(lines))
    ensures after == shop.(orders := after.orders, products := after.products, cart := shop.cart - CartIds(lines))
  {
    hide InsertOrders, DecrementAll, MarkSoldOut, GroupBySeller;
  }

  lemma {:induction false} CommitKeys(shop: Shop, id: SessionId, buyerId: UserId, payment: nat, lines: seq<Line>,
      after: Shop)
    requires Committed(shop, id, buyerId, payment, lines, after) && PositiveLines(lines)
    ensures after.products.Keys == shop.products.Keys
  {
    hide Committed, DecrementAll, InsertOrders, GroupBySeller, ProductIds, PositiveLines;
    CommitShape(shop, id, buyerId, payment, lines, after);
    DecrementTakes(shop.products, lines);
  }

  lemma {:induction false} CommitUnits(shop: Shop, id: SessionId, buyerId: UserId, payment: nat, lines: seq<Line>,
      after: Shop, p: ProductId)
    requires Committed(shop, id, buyerId, payment, lines, after)
    ensures UnitsOut(after.orders, p) == UnitsOut(shop.orders, p) + SumBy(lines, UnitsFor(p))
  {
    hide *;
    CommitShape(shop, id, buyerId, payment, lines, after);
    InsertedUnits(shop.orders, id, buyerId, payment, GroupBySeller(lines), p);
    GroupingKeepsSums(lines, UnitsFor(p));
  }

  lemma {:induction false} CommitRow(shop: Shop, id: SessionId, buyerId: UserId, payment: nat, lines: seq<Line>,
      after: Shop, p: ProductId)
    requires Committed(shop, id, buyerId, payment, lines, after) && PositiveLines(lines)
    requires p in shop.products && p in after.products
    ensures UnitsMoved(shop.products[p], after.products[p], UnitsOut(shop.orders, p), UnitsOut(after.orders, p))
  {
    hide *;
    CommitShape(shop, id, buyerId, payment, lines, after);
    CommitUnits(shop, id, buyerId, payment, lines, after, p);
    DecrementTakes(shop.products, lines);
    RowAfter(shop.products, lines, DecrementAll(shop.products, lines).value, p, UnitsOut(shop.orders, p));
  }

  /** Stock falls by what the lines take, units in orders rise by as much, and a shelf in order stays so. */
  lemma {:induction false} CommitMovesUnits(shop: Shop, id: SessionId, buyerId: UserId, payment: nat, lines: seq<Line>,
      after: Shop)
    requires Committed(shop, id, buyerId, payment, lines, after) && PositiveLines(lines)
    ensures AllMoved(shop, after)
  {
    hide Committed, PositiveLines, UnitsMoved, UnitsOut;
    CommitKeys(shop, id, buyerId, payment, lines, after);
    forall p | p in shop.products
      ensures UnitsMoved(shop.products[p], after.products[p], UnitsOut(shop.orders, p), UnitsOut(after.orders, p))
    {
      CommitRow(shop, id, buyerId, payment, lines, after, p);
    }
  }

  lemma {:induction false} CommitGrows(shop: Shop, id: SessionId, buyerId: UserId, payment: nat, lines: seq<Line>,
      after: Shop)
    requires Committed(shop, id, buyerId, payment, lines, after) && PositiveLines(lines)
    ensures Grows(shop, after, {id}) && AllMoved(shop, after)
    ensures Appended(shop.orders, id, buyerId, payment, GroupBySeller(lines), after.orders)
  {
    CommitShape(shop, id, buyerId, payment, lines, after);
    CommitMovesUnits(shop, id, buyerId, payment, lines, after);
    MovedRows(shop, after);
    InsertAppends(shop.orders, id, buyerId, payment, GroupBySeller(lines));
    hide Committed, PositiveLines, InsertOrders, DecrementAll, GroupBySeller, MarkSoldOut, UnitsOut, Grows, Appended,
        AllMoved, RowsStay;
    NewOrdersAreOwn(shop.orders, id, buyerId, payment, GroupBySeller(lines), after.orders);
    OrdersGrow(shop, after, id);
  }

  lemma {:induction false} OrdersGrow(shop: Shop, after: Shop, id: SessionId)
    requires after == shop.(orders := after.orders, products := after.products, cart := after.cart)
    requires RowsStay(shop.products, after.products)
    requires |shop.orders| <= |after.orders|
    requires forall k | 0 <= k < |shop.orders| :: after.orders[k] == shop.orders[k]
    requires forall k | |shop.orders| <= k < |after.orders| :: after.orders[k].sessionId == id
    ensures Grows(shop, after, {id})
  {
    hide RowsStay;
  }

  lemma {:induction false} NewOrdersAreOwn(orders: seq<Order>, id: SessionId, buyerId: UserId, payment: nat,
      groups: seq<Group>, all: seq<Order>)
    requires Appended(orders, id, buyerId, payment, groups, all)
    ensures |orders| <= |all|
    ensures forall k | |orders| <= k < |all| :: all[k].sessionId == id
    ensures forall k | 0 <= k < |orders| :: all[k] == orders[k]
  {
    forall k | |orders| <= k < |all|
      ensures all[k].sessionId == id
    {
      assert all[|orders| + (k - |orders|)] == OrderOf(id, buyerId, payment, groups[k - |orders|]);
    }
  }

  lemma {:induction false} CommitOrders(shop: Shop, id: SessionId, buyerId: UserId, payment: nat, lines: seq<Line>,
      after: Shop)
    requires Committed(shop, id, buyerId, payment, lines, after) && Grows(shop, after, {id})
    requires Appended(shop.orders, id, buyerId, payment, GroupBySeller(lines), after.orders)
    requires OrdersOk(shop) && AllLinesOk(after, buyerId, lines)
    ensures OrdersOk(after)
  {
    hide Committed, OrderOk, Grows, GroupBySeller, AllLinesOk, OrderOf;
    var groups := GroupBySeller(lines);
    forall k | 0 <= k < |after.orders|
      ensures OrderOk(after, after.orders[k])
    {
      if k < |shop.orders| {
        assert after.orders[k] == shop.orders[k];
        OrderSurvives(shop, after, {id}, shop.orders[k]);
      } else {
        var g := k - |shop.orders|;
        assert after.orders[|shop.orders| + g] == OrderOf(id, buyerId, payment, groups[g]);
        GroupLinesOk(after, buyerId, lines, g);
        GroupOrderOk(after, id, buyerId, payment, groups[g]);
      }
    }
  }

  lemma {:induction false} SameReceiptAsItself(order: Order)
    ensures SameReceipt(order, order)
  {
  }

  lemma {:induction false} CommitReceipt(shop: Shop, id: SessionId, buyerId: UserId, payment: nat, lines: seq<Line>,
      after: Shop)
    requires NoOrders(shop, id) && Appended(shop.orders, id, buyerId, payment, GroupBySeller(lines), after.orders)
    ensures OrderedAs(after, id, buyerId, lines, payment, |shop.orders|)
  {
    NewOrdersAreOwn(shop.orders, id, buyerId, payment, GroupBySeller(lines), after.orders);
    hide GroupBySeller, OrderOf, SameReceipt;
    var groups := GroupBySeller(lines);
    forall g | 0 <= g < |groups|
      ensures SameReceipt(after.orders[|shop.orders| + g], OrderOf(id, buyerId, payment, groups[g]))
    {
      assert after.orders[|shop.orders| + g] == OrderOf(id, buyerId, payment, groups[g]);
      SameReceiptAsItself(after.orders[|shop.orders| + g]);
    }
    forall k | 0 <= k < |shop.orders|
      ensures after.orders[k].sessionId != id
    {
      assert after.orders[k] == shop.orders[k];
    }
  }

  lemma {:induction false} LinesAreFine(shop: Shop, session: Session, lines: seq<Line>)
    requires LinesOk(shop, session, lines)
    ensures PositiveLines(lines) && AllLinesOk(shop, session.buyerId, lines)
  {
    forall i | 0 <= i < |lines|
      ensures lines[i].quantity >= 1
    {
      assert LineOk(shop, session.buyerId, lines[i]);
    }
  }

  lemma {:induction false} CommitSession(s: ShopSystem, id: SessionId, payment: nat, lines: seq<Line>, after: Shop)
    requires Books(s) && id in s.sessions && s.sessions[id].stage == Charged(lines, payment)
    requires Committed(s.shop, id, s.sessions[id].buyerId, payment, lines, after)
    ensures Grows(s.shop, after, {id}) && OrdersOk(after) && PositiveLines(lines) && AllMoved(s.shop, after)
    ensures Appended(s.shop.orders, id, s.sessions[id].buyerId, payment, GroupBySeller(lines), after.orders)
    ensures SessionOk(after, id, s.sessions[id].(stage := Ordered(lines, payment, |s.shop.orders|)))
  {
    var session := s.sessions[id];
    var buyerId := session.buyerId;
    assert SessionOk(s.shop, id, session);
    hide RowsOk, EditsOk, OrdersOk, LotsOnce, PaymentsOnce, LinesOk, NoOrders, OrderedAs, Committed, Grows, Appended,
        OfferSpent, AllLinesOk, PositiveLines, SumBy, GroupBySeller, NoPayment;
    LinesAreFine(s.shop, session, lines);
    CommitGrows(s.shop, id, buyerId, payment, lines, after);
    LinesSurvive(s.shop, after, {id}, session, lines);
    LinesAreFine(after, session, lines);
    CommitOrders(s.shop, id, buyerId, payment, lines, after);
    CommitReceipt(s.shop, id, buyerId, payment, lines, after);
    LinesIgnoreStage(after, session, session.(stage := Ordered(lines, payment, |s.shop.orders|)), lines);
    OfferStaysSpent(s.shop, after, {id}, session.offer);
    CommitShape(s.shop, id, buyerId, payment, lines, after);
    hide InsertOrders, DecrementAll, MarkSoldOut, Books;
  }

  /** A commit that goes through keeps everything. */
  lemma {:induction false} CommitKeeps(s: ShopSystem, id: SessionId, payment: nat, lines: seq<Line>, after: Shop)
    requires Books(s) && id in s.sessions && s.sessions[id].stage == Charged(lines, payment)
    requires Committed(s.shop, id, s.sessions[id].buyerId, payment, lines, after)
    ensures Books(s.(shop := after, sessions := Moved(s, id, Ordered(lines, payment, |s.shop.orders|))))
        && Grows(s.shop, after, {id})
  {
    hide RowsOk, EditsOk, OrdersOk, LotsOnce, PaymentsOnce, Committed, Grows, Appended, GroupBySeller, PositiveLines,
        SessionOk, Baskets;
    CommitSession(s, id, payment, lines, after);
    MovedRows(s.shop, after);
    MovedEdits(s, after);
    assert after.products.Keys == s.shop.products.Keys;
    hide AllMoved, RowsStay;
    SessionsSurvive(s, after, {id});
    CommitRest(s, id, payment, lines, after);
    var next := s.(shop := after, sessions := Moved(s, id, Ordered(lines, payment, |s.shop.orders|)));
    assert EditsOk(next) by { SameEdits(s, next); }
    hide EditOk;
  }

  lemma {:induction false} SameEdits(s: ShopSystem, next: ShopSystem)
    requires next.edits == s.edits && forall e | e in s.edits :: EditOk(next.shop.products, s.edits[e])
    ensures EditsOk(next)
  {
    hide EditOk;
  }

  lemma {:induction false} MovedEdits(s: ShopSystem, after: Shop)
    requires Books(s) && AllMoved(s.shop, after)
    ensures forall e | e in s.edits :: EditOk(after.products, s.edits[e])
  {
    hide AllMoved, RowsOk, OrdersOk, LotsOnce, PaymentsOnce, Baskets, SessionOk, OffersApart, RowsStay;
    MovedRows(s.shop, after);
    EditsSurvive(s, after);
  }

  lemma {:induction false} CommitRest(s: ShopSystem, id: SessionId, payment: nat, lines: seq<Line>, after: Shop)
    requires Books(s) && id in s.sessions && Committed(s.shop, id, s.sessions[id].buyerId, payment, lines, after)
    requires after.products.Keys == s.shop.products.Keys
    requires Appended(s.shop.orders, id, s.sessions[id].buyerId, payment, GroupBySeller(lines), after.orders)
    ensures LotsOnce(after.orders) && after.payments == s.shop.payments && Baskets(after)
    ensures forall k | 0 <= k < |after.orders| :: after.orders[k].sessionId in s.sessions
  {
    CommitShape(s.shop, id, s.sessions[id].buyerId, payment, lines, after);
    LotsStayOnce(s.shop.orders, id, s.sessions[id].buyerId, payment, GroupBySeller(lines));
    NewOrdersAreOwn(s.shop.orders, id, s.sessions[id].buyerId, payment, GroupBySeller(lines), after.orders);
    hide RowsOk, EditsOk, OrdersOk, LotsOnce, PaymentsOnce, SessionOk, Committed, Appended, InsertOrders,
        DecrementAll, MarkSoldOut, GroupBySeller, SumBy;
  }

  lemma {:induction false} WriteOrdersKeeps(s: ShopSystem, id: SessionId)
    requires Books(s)
    ensures Books(Next(s, WriteOrders(id))) && Grows(s.shop, Next(s, WriteOrders(id)).shop, {id})
  {
    StillGrows(s.shop, id);
    if id in s.sessions && s.sessions[id].stage.Charged? {
      var Charged(lines, payment) := s.sessions[id].stage;
      var result := WriteOrdersStep(s.shop, id, s.sessions[id].buyerId, payment, lines);
      WritingIs(s, id);
      hide Books, Next, WriteOrdersStep, Grows;
      if result.Ok? {
        CommitKeeps(s, id, payment, lines, result.value);
      } else {
        LossKeeps(s, id, payment, lines);
      }
    }
  }

  lemma {:induction false} StillGrows(shop: Shop, id: SessionId)
    ensures Grows(shop, shop, {id})
  {
  }

  lemma {:induction false} WritingIs(s: ShopSystem, id: SessionId)
    requires id in s.sessions && s.sessions[id].stage.Charged?
    ensures
      var Charged(lines, payment) := s.sessions[id].stage;
      var result := WriteOrdersStep(s.shop, id, s.sessions[id].buyerId, payment, lines);
      Next(s, WriteOrders(id)) ==
        if result.Ok? then s.(shop := result.value, sessions := Moved(s, id, Ordered(lines, payment, |s.shop.orders|)))
        else s.(sessions := Moved(s, id, LostAfterCharge(lines, payment)))
  {
    hide WriteOrdersStep;
  }

  /** A commit that fails leaves the charge on record and nothing else. */
  lemma {:induction false} LossKeeps(s: ShopSystem, id: SessionId, payment: nat, lines: seq<Line>)
    requires Books(s) && id in s.sessions && s.sessions[id].stage == Charged(lines, payment)
    ensures Books(s.(sessions := Moved(s, id, LostAfterCharge(lines, payment))))
  {
    var lost := s.sessions[id].(stage := LostAfterCharge(lines, payment));
    assert SessionOk(s.shop, id, s.sessions[id]);
    assert SessionOk(s.shop, id, lost) by { hide LinesOk, PaidBy, NoOrders, OfferSpent; }
    hide Books, SessionOk;
    SessionMoves(s, id, lost);
  }
}
