/** When the orders of a paid session can be written, exactly; and what two checkouts of one cart do. */
module CheckoutOutcome {
  import opened Wrappers
  import opened LineTotal
  import opened ShopRules
  import opened ShopSteps
  import opened ShopRuns
  import opened ShopInvariant
  import opened ShopCommit
  import opened ShopReachable
  import opened ShopTheorems

  // ---- Stock ----

  /** Every listing of the lines is on sale with enough left for all its lines together. */
  ghost predicate Enough(products: map<ProductId, Product>, lines: seq<Line>) {
    forall p | p in ProductIds(lines) ::
      p in products && products[p].status == ACTIVE && SumBy(lines, UnitsFor(p)) <= products[p].stockQty
  }

  lemma {:induction false} OneMoreId(lines: seq<Line>, line: Line)
    ensures ProductIds(lines + [line]) == ProductIds(lines) + if line.productId.Some? then {line.productId.value}
        else {}
  {
    var all := lines + [line];
    forall p
      ensures p in ProductIds(all) <==> p in ProductIds(lines) || line.productId == Some(p)
    {
      if p in ProductIds(lines) {
        var i :| 0 <= i < |lines| && lines[i].productId.Some? && lines[i].productId.value == p;
        assert all[i].productId == Some(p);
      }
      assert all[|lines|] == line;
    }
  }

  lemma {:induction false} EnoughOneMore(products: map<ProductId, Product>, lines: seq<Line>,
      mid: map<ProductId, Product>, line: Line)
    requires PositiveLines(lines) && line.quantity >= 1 && Taken(products, lines, mid) && Enough(products, lines)
    ensures DecrementOne(mid, line).Some? <==> Enough(products, lines + [line])
  {
    OneMoreId(lines, line);
    forall p: ProductId
      ensures SumBy(lines + [line], UnitsFor(p)) == SumBy(lines, UnitsFor(p)) + if line.productId == Some(p)
          then line.quantity else 0
    {
      SumByAppend(lines, line, UnitsFor(p));
    }
    hide SumBy, ProductIds;
    if line.productId.Some? {
      SumOfUnits(lines, line.productId.value);
    }
  }

  lemma {:induction false} EnoughOfFewer(products: map<ProductId, Product>, lines: seq<Line>, line: Line)
    requires Enough(products, lines + [line])
    ensures Enough(products, lines)
  {
    OneMoreId(lines, line);
    forall p | p in ProductIds(lines)
      ensures p in products && products[p].status == ACTIVE && SumBy(lines, UnitsFor(p)) <= products[p].stockQty
    {
      SumByAppend(lines, line, UnitsFor(p));
    }
  }

  /** The conditional updates all match exactly when there is enough, counting a listing's lines together. */
  lemma {:induction false} DecrementSucceedsExactly(products: map<ProductId, Product>, lines: seq<Line>)
    requires PositiveLines(lines)
    ensures DecrementAll(products, lines).Some? <==> Enough(products, lines)
    decreases |lines|
  {
    if lines != [] {
      var rest, line := lines[..|lines| - 1], lines[|lines| - 1];
      assert rest + [line] == lines;
      DecrementSucceedsExactly(products, rest);
      hide Enough, ProductIds, SumBy, Taken, DecrementOne;
      if DecrementAll(products, rest).Some? {
        DecrementTakes(products, rest);
        EnoughOneMore(products, rest, DecrementAll(products, rest).value, line);
      } else if Enough(products, lines) {
        EnoughOfFewer(products, rest, line);
      }
    }
  }

  // ---- Unique indexes ----

  ghost predicate NoLots(lines: seq<Line>) {
    forall i | 0 <= i < |lines| :: lines[i].auctionId.None?
  }

  ghost predicate FreshId(orders: seq<Order>, id: SessionId) {
    forall k | 0 <= k < |orders| :: orders[k].sessionId != id
  }

  lemma {:induction false} NoClash(orders: seq<Order>, id: SessionId, buyerId: UserId, payment: nat,
      groups: seq<Group>, all: seq<Order>, group: Group)
    requires FreshId(orders, id) && Appended(orders, id, buyerId, payment, groups, all) && NoLots(group.lines)
    requires forall g | 0 <= g < |groups| :: groups[g].sellerId != group.sellerId
    ensures !Clashes(all, OrderOf(id, buyerId, payment, group))
  {
    hide SumBy, LotPaid;
    var order := OrderOf(id, buyerId, payment, group);
    forall k | 0 <= k < |all|
      ensures !(all[k].sessionId == id && all[k].sellerId == group.sellerId)
    {
      if k < |orders| {
        assert all[k] == orders[k];
      } else {
        assert all[|orders| + (k - |orders|)] == OrderOf(id, buyerId, payment, groups[k - |orders|]);
      }
    }
    forall i | 0 <= i < |order.items|
      ensures order.items[i].auctionId.None?
    {
      assert group.lines[i].auctionId.None?;
    }
  }

  lemma {:induction false} ListingsNeverClash(orders: seq<Order>, id: SessionId, buyerId: UserId, payment: nat,
      groups: seq<Group>)
    requires FreshId(orders, id) && OnePerSeller(groups)
    requires forall g | 0 <= g < |groups| :: NoLots(groups[g].lines)
    ensures InsertOrders(orders, id, buyerId, payment, groups).Some?
    decreases |groups|
  {
    hide Clashes, OrderOf, Appended, NoLots;
    if groups != [] {
      var rest, group := groups[..|groups| - 1], groups[|groups| - 1];
      ListingsNeverClash(orders, id, buyerId, payment, rest);
      InsertAppends(orders, id, buyerId, payment, rest);
      NoClash(orders, id, buyerId, payment, rest, InsertOrders(orders, id, buyerId, payment, rest).value, group);
    }
  }

  lemma {:induction false} GroupsWithoutLots(lines: seq<Line>, g: nat)
    requires NoLots(lines) && g < |GroupBySeller(lines)|
    ensures NoLots(GroupBySeller(lines)[g].lines) && OnePerSeller(GroupBySeller(lines))
  {
    GroupingPartitions(lines);
    var group := GroupBySeller(lines)[g];
    LinesOfMembers(lines, group.sellerId);
    hide GroupBySeller;
    forall i | 0 <= i < |group.lines|
      ensures group.lines[i].auctionId.None?
    {
      assert group.lines[i] in lines;
    }
  }

  lemma {:induction false} LotClashesExactly(orders: seq<Order>, id: SessionId, buyerId: UserId, payment: nat,
      line: Line)
    requires FreshId(orders, id)
    ensures InsertOrders(orders, id, buyerId, payment, GroupBySeller([line])).Some?
            <==> line.auctionId.None? || !LotPaid(orders, line.auctionId.value)
  {
    hide LotPaid, SumBy;
    OneLineOneGroup(line);
    var group := Group(line.sellerId, [line]);
    assert [group][..0] == [];
    var order := OrderOf(id, buyerId, payment, group);
    assert InsertOrders(orders, id, buyerId, payment, []) == Some(orders);
    assert InsertOrders(orders, id, buyerId, payment, [group]).Some? <==> !Clashes(orders, order);
    assert |order.items| == 1 && order.items[0].auctionId == line.auctionId;
  }

  ghost predicate LotsFree(orders: seq<Order>, lines: seq<Line>) {
    forall i | 0 <= i < |lines| && lines[i].auctionId.Some? :: !LotPaid(orders, lines[i].auctionId.value)
  }

  lemma {:induction false} InsertSucceedsExactly(orders: seq<Order>, id: SessionId, buyerId: UserId, payment: nat,
      lines: seq<Line>)
    requires FreshId(orders, id) && OneKind(lines)
    ensures InsertOrders(orders, id, buyerId, payment, GroupBySeller(lines)).Some? <==> LotsFree(orders, lines)
  {
    hide InsertOrders, GroupBySeller, LotPaid, NoLots, OnePerSeller;
    if |lines| == 1 {
      assert lines == [lines[0]];
      LotClashesExactly(orders, id, buyerId, payment, lines[0]);
    } else {
      assert NoLots(lines) by { NoLotsIs(lines); }
      var groups := GroupBySeller(lines);
      forall g | 0 <= g < |groups|
        ensures NoLots(groups[g].lines)
      {
        GroupsWithoutLots(lines, g);
      }
      GroupsApart(lines);
      ListingsNeverClash(orders, id, buyerId, payment, groups);
    }
  }

  lemma {:induction false} NoLotsIs(lines: seq<Line>)
    requires OneKind(lines) && |lines| != 1
    ensures NoLots(lines)
  {
  }

  lemma {:induction false} GroupsApart(lines: seq<Line>)
    ensures OnePerSeller(GroupBySeller(lines))
  {
    GroupingPartitions(lines);
    hide GroupBySeller;
  }

  lemma {:induction false} ChargedFacts(s: ShopSystem, id: SessionId)
    requires Reachable(s) && id in s.sessions && s.sessions[id].stage.Charged?
    ensures OneKind(s.sessions[id].stage.lines) && PositiveLines(s.sessions[id].stage.lines)
    ensures FreshId(s.shop.orders, id)
  {
    GoodSession(s, id);
    hide Reachable, PaidBy, OfferSpent, PaymentsOnce, LineOk;
    LinesAreFine(s.shop, s.sessions[id], s.sessions[id].stage.lines);
  }

  lemma {:induction false} CommitSucceedsExactly(shop: Shop, id: SessionId, buyerId: UserId, payment: nat,
      lines: seq<Line>)
    requires FreshId(shop.orders, id) && OneKind(lines) && PositiveLines(lines)
    ensures WriteOrdersStep(shop, id, buyerId, payment, lines).Ok? <==>
        LotsFree(shop.orders, lines) && Enough(shop.products, lines)
  {
    hide FreshId, OneKind, PositiveLines, LotsFree, Enough, InsertOrders, DecrementAll, MarkSoldOut, GroupBySeller;
    InsertSucceedsExactly(shop.orders, id, buyerId, payment, lines);
    DecrementSucceedsExactly(shop.products, lines);
  }

  /**
   * After the charge, a session's orders are written exactly when its lot, if it
   * pays for one, is in no order yet and every listing is still on sale with
   * enough left; otherwise nothing is written and the charge stands.
   */
  lemma {:induction false} OrdersAreWrittenExactlyWhen(s: ShopSystem, id: SessionId)
    requires Reachable(s) && id in s.sessions && s.sessions[id].stage.Charged?
    ensures
      var after := Next(s, WriteOrders(id));
      var lines := s.sessions[id].stage.lines;
      && id in after.sessions
      && (after.sessions[id].stage.Ordered? <==> LotsFree(s.shop.orders, lines) && Enough(s.shop.products, lines))
      && (!after.sessions[id].stage.Ordered? ==>
            after.sessions[id].stage == LostAfterCharge(lines, s.sessions[id].stage.payment) && after.shop == s.shop)
  {
    hide Reachable, Next, WriteOrdersStep, OneKind, FreshId, PositiveLines, LotsFree, Enough;
    var Charged(lines, payment) := s.sessions[id].stage;
    ChargedFacts(s, id);
    WritingIs(s, id);
    CommitSucceedsExactly(s.shop, id, s.sessions[id].buyerId, payment, lines);
  }

  // ---- When a cart can be priced ----

  lemma {:induction false} DistinctCount(items: seq<CartItemId>, members: set<CartItemId>)
    requires forall i, j | 0 <= i < j < |items| :: items[i] != items[j]
    requires forall c :: c in members <==> c in items
    ensures |members| == |items|
    decreases |items|
  {
    if items == [] {
      assert members == {};
    } else {
      var rest, last := items[..|items| - 1], items[|items| - 1];
      assert items == rest + [last];
      assert last !in rest;
      DistinctCount(rest, members - {last});
    }
  }

  lemma {:induction false} SameSize(part: set<CartItemId>, whole: set<CartItemId>)
    requires part <= whole
    ensures |part| == |whole| <==> part == whole
  {
    assert whole == part + (whole - part);
    assert |whole| == |part| + |whole - part|;
  }

  /** Every selected line is there and is this buyer's own. */
  ghost predicate AllFound(shop: Shop, buyerId: UserId, selected: Option<set<CartItemId>>) {
    selected.Some? ==> forall c | c in selected.value :: Matches(shop, buyerId, selected, c)
  }

  ghost predicate AllBuyable(shop: Shop, buyerId: UserId, items: seq<CartItemId>)
    requires forall i | 0 <= i < |items| :: items[i] in shop.cart && shop.cart[items[i]].productId in shop.products
  {
    forall i | 0 <= i < |items| :: Buyable(buyerId, shop.cart[items[i]], shop.products[shop.cart[items[i]].productId])
  }

  lemma {:induction false} FoundExactly(shop: Shop, buyerId: UserId, selected: set<CartItemId>, items: seq<CartItemId>)
    requires CartRows(shop, buyerId, Some(selected), items)
    ensures |items| == |selected| <==> AllFound(shop, buyerId, Some(selected))
  {
    var found := set c | c in items;
    DistinctCount(items, found);
    forall c | c in found
      ensures c in selected
    {
      assert Matches(shop, buyerId, Some(selected), c);
    }
    SameSize(found, selected);
    if AllFound(shop, buyerId, Some(selected)) {
      forall c | c in selected
        ensures c in found
      {
        assert Matches(shop, buyerId, Some(selected), c);
      }
      assert found == selected;
    }
    if found == selected {
      forall c | c in selected
        ensures Matches(shop, buyerId, Some(selected), c)
      {
        assert c in items;
      }
    }
  }

  ghost predicate LineIsPriced(shop: Shop, line: Line, item: CartItemId)
    requires item in shop.cart && shop.cart[item].productId in shop.products
  {
    var row := shop.cart[item];
    var product := shop.products[row.productId];
    PricedBy(line.unitPrice, line.subtotal, product.price, row.quantity, product.rule)
  }

  /**
   * A cart is priced, and money is asked for, exactly when something is in it,
   * every line the buyer picked is there, and every line can be bought; then each
   * line is for the listing and the quantity of its row.
   */
  lemma {:induction false} CartIsPricedExactlyWhen(shop: Shop, buyerId: UserId, selected: Option<set<CartItemId>>,
      items: seq<CartItemId>)
    requires CartRows(shop, buyerId, selected, items)
    ensures PriceCart(shop, buyerId, selected, items).Some?
            <==> items != [] && AllFound(shop, buyerId, selected) && AllBuyable(shop, buyerId, items)
    ensures PriceCart(shop, buyerId, selected, items).Some? ==>
              var lines := PriceCart(shop, buyerId, selected, items).value;
              |lines| == |items| && forall i | 0 <= i < |lines| ::
                && lines[i].cartItemId == Some(items[i])
                && lines[i].productId == Some(shop.cart[items[i]].productId)
                && lines[i].quantity == shop.cart[items[i]].quantity
                && lines[i].quantity <= shop.products[shop.cart[items[i]].productId].stockQty
                && lines[i].sellerId == shop.products[shop.cart[items[i]].productId].sellerId != buyerId
                && LineIsPriced(shop, lines[i], items[i])
  {
    var rows := WithProducts(shop, items);
    NoIssuesMeansBuyable(buyerId, rows);
    if selected.Some? { FoundExactly(shop, buyerId, selected.value, items); }
    if PriceCart(shop, buyerId, selected, items).Some? {
      forall i | 0 <= i < |items|
        ensures LineIsPriced(shop, CartLine(shop, items[i]), items[i])
      {
        var row := shop.cart[items[i]];
        TotalIsPriced(shop.products[row.productId].price, row.quantity, shop.products[row.productId].rule);
      }
    }
    hide Issues, AllFound, CalculateLineTotal, PricedBy;
    assert AllBuyable(shop, buyerId, items) <==> forall i | 0 <= i < |rows| :: Buyable(buyerId, rows[i].0, rows[i].1);
  }

  /** Writing the orders clears the cart lines it ordered and no other, whatever joined the cart since. */
  lemma {:induction false} OnlyOrderedLinesAreCleared(s: ShopSystem, id: SessionId, c: CartItemId)
    requires id in s.sessions && s.sessions[id].stage.Charged?
    ensures
      var after := Next(s, WriteOrders(id));
      var lines := s.sessions[id].stage.lines;
      && id in after.sessions
      && (c in after.shop.cart <==>
            c in s.shop.cart && !(after.sessions[id].stage.Ordered? && exists i | 0 <= i < |lines| ::
                lines[i].cartItemId == Some(c)))
      && (c in after.shop.cart ==> after.shop.cart[c] == s.shop.cart[c])
  {
    var session := s.sessions[id];
    var Charged(lines, payment) := session.stage;
    var after := Next(s, WriteOrders(id));
    OrderedMeansCommitted(s, id);
    LostWritesNothing(s, id);
    hide Next, Committed;
    if after.sessions[id].stage.Ordered? {
      CommitShape(s.shop, id, session.buyerId, payment, lines, after.shop);
      hide InsertOrders, DecrementAll, MarkSoldOut, GroupBySeller;
      assert c in CartIds(lines) <==> exists i | 0 <= i < |lines| :: lines[i].cartItemId == Some(c);
    }
  }

  lemma {:induction false} LostWritesNothing(s: ShopSystem, id: SessionId)
    requires id in s.sessions && s.sessions[id].stage.Charged?
    ensures
      var after := Next(s, WriteOrders(id));
      id in after.sessions && (!after.sessions[id].stage.Ordered? ==> after.shop == s.shop)
  {
    hide WriteOrdersStep;
  }

  // ---- Two checkouts of one cart ----

  function TwoTabs(): ShopSystem {
    var product := Product(1, 100, 2, ACTIVE, None, QuantityDiscountRule(None, None));
    EMPTY.(shop := EMPTY.shop.(products := map[7 := product], cart := map[5 := CartItem(2, 7, 1)]))
  }

  const TAB_LINE: Line := Line(Some(5), Some(7), None, 1, 1, 100, 100)

  lemma {:induction false} TwoTabsIsReachable()
    ensures Reachable(TwoTabs())
  {
    var create := Action.Create(7, 1, 100, 2, None, QuantityDiscountRule(None, None));
    var put := PutInCart(5, CartItem(2, 7, 1));
    var one := [create];
    var two := [create, put];
    assert one[..0] == [] && two[..1] == one;
    assert Run(EMPTY, []) == EMPTY;
    var s := Next(EMPTY, create);
    assert s.shop.products == map[7 := Product(1, 100, 2, ACTIVE, None, QuantityDiscountRule(None, None))];
    assert Run(EMPTY, one) == s;
    assert Run(EMPTY, two) == Next(s, put);
    assert Next(s, put) == TwoTabs();
  }

  lemma {:induction false} TabPrices(shop: Shop)
    requires shop == TwoTabs().shop
    ensures CartRows(shop, 2, None, [5]) && PriceCart(shop, 2, None, [5]) == Some([TAB_LINE])
  {
    assert Matches(shop, 2, None, 5);
    assert forall item :: item in [5] <==> item == 5;
    var items := [5];
    var rows := WithProducts(shop, items);
    assert rows[..0] == [];
    assert IssueOf(2, rows[0].0, rows[0].1) == None;
    assert Issues(2, []) == [];
    assert Issues(2, rows) == [];
    assert CartLine(shop, 5) == TAB_LINE;
    assert CartLines(shop, items) == [TAB_LINE];
  }

  lemma {:induction false} TabTotal()
    ensures SumBy([TAB_LINE], Subtotals()) == 100
    ensures SumBy([TAB_LINE], UnitsFor(7)) == 1
    ensures ProductIds([TAB_LINE]) == {7}
  {
    assert [TAB_LINE][..0] == [];
    assert SumBy([], Subtotals()) == 0 && SumBy([], UnitsFor(7)) == 0;
    assert [TAB_LINE][0].productId == Some(7);
  }

  function Tab(stage: Stage): Session { Session(2, None, stage) }

  /** Both tabs have priced the cart and been charged; nothing is written yet. */
  function BothCharged(): ShopSystem {
    var s := TwoTabs();
    s.(shop := s.shop.(payments := [Payment(0, true, 100), Payment(1, true, 100)]),
       sessions := map[0 := Tab(Charged([TAB_LINE], 0)), 1 := Tab(Charged([TAB_LINE], 1))])
  }

  lemma {:induction false} TabOpens(s: ShopSystem, id: SessionId)
    requires s.shop == TwoTabs().shop && id !in s.sessions
    ensures Next(s, CheckoutCart(id, 2, None, [5])) == s.(sessions := s.sessions[id := Tab(Priced([TAB_LINE]))])
  {
    TabPrices(s.shop);
    hide PriceCart, CartRows, TwoTabs;
  }

  lemma {:induction false} TabCharges(s: ShopSystem, id: SessionId)
    requires id in s.sessions && s.sessions[id] == Tab(Priced([TAB_LINE]))
    ensures Next(s, Charge(id)) == s.(shop := s.shop.(payments := s.shop.payments + [Payment(id, true, 100)]),
                                      sessions := s.sessions[id := Tab(Charged([TAB_LINE], |s.shop.payments|))])
  {
    TabTotal();
    hide SumBy, PriceCart, CartRows;
  }

  lemma {:induction false} BothChargedIsReachable()
    ensures Reachable(BothCharged())
    ensures BothCharged() == Next(Next(Next(Next(TwoTabs(), CheckoutCart(0, 2, None, [5])),
        CheckoutCart(1, 2, None, [5])), Charge(0)), Charge(1))
  {
    hide Reachable, Next;
    TwoTabsIsReachable();
    var s0 := TwoTabs();
    TabOpens(s0, 0);
    ReachableNext(s0, CheckoutCart(0, 2, None, [5]));
    var s1 := Next(s0, CheckoutCart(0, 2, None, [5]));
    TabOpens(s1, 1);
    ReachableNext(s1, CheckoutCart(1, 2, None, [5]));
    var s2 := Next(s1, CheckoutCart(1, 2, None, [5]));
    TabCharges(s2, 0);
    ReachableNext(s2, Charge(0));
    var s3 := Next(s2, Charge(0));
    TabCharges(s3, 1);
    ReachableNext(s3, Charge(1));
    assert Next(s3, Charge(1)) == BothCharged();
  }

  lemma {:induction false} TabTakes(shop: Shop, id: SessionId, buyerId: UserId, payment: nat, after: Shop)
    requires Committed(shop, id, buyerId, payment, [TAB_LINE], after)
    requires 7 in shop.products && shop.products[7].status == ACTIVE && shop.products[7].stockQty >= 1
    ensures 7 in after.products && after.products[7].stockQty == shop.products[7].stockQty - 1
    ensures shop.products[7].stockQty >= 2 ==> after.products[7].status == ACTIVE
  {
    hide Committed, ProductIds;
    CommitShape(shop, id, buyerId, payment, [TAB_LINE], after);
    assert [TAB_LINE][..0] == [];
    assert DecrementAll(shop.products, []) == Some(shop.products);
  }

  lemma {:induction false} TabFits(shop: Shop)
    requires 7 in shop.products && shop.products[7].status == ACTIVE && shop.products[7].stockQty >= 1
    ensures LotsFree(shop.orders, [TAB_LINE]) && Enough(shop.products, [TAB_LINE])
  {
    TabTotal();
    hide SumBy, ProductIds, LotPaid;
  }

  lemma {:induction false} OrderedMeansCommitted(s: ShopSystem, id: SessionId)
    requires id in s.sessions && s.sessions[id].stage.Charged?
    ensures
      var after := Next(s, WriteOrders(id));
      && id in after.sessions
      && (after.sessions[id].stage.Ordered? ==>
            && Committed(s.shop, id, s.sessions[id].buyerId, s.sessions[id].stage.payment, s.sessions[id].stage.lines,
                after.shop)
            && after.sessions[id].stage.lines == s.sessions[id].stage.lines)
      && (forall x | x in s.sessions && x != id :: x in after.sessions && after.sessions[x] == s.sessions[x])
  {
    hide WriteOrdersStep;
  }

  lemma {:induction false} TabWrites(s: ShopSystem, id: SessionId)
    requires Reachable(s) && id in s.sessions && s.sessions[id].stage.Charged?
        && s.sessions[id].stage.lines == [TAB_LINE]
    requires 7 in s.shop.products && s.shop.products[7].status == ACTIVE && s.shop.products[7].stockQty >= 1
    ensures
      var after := Next(s, WriteOrders(id));
      && id in after.sessions && after.sessions[id].stage.Ordered? && after.sessions[id].stage.lines == [TAB_LINE]
      && 7 in after.shop.products
      && after.shop.products[7].stockQty == s.shop.products[7].stockQty - 1
      && (s.shop.products[7].stockQty >= 2 ==> after.shop.products[7].status == ACTIVE)
      && (forall x | x in s.sessions && x != id :: x in after.sessions && after.sessions[x] == s.sessions[x])
  {
    hide Reachable, Next, LotsFree, Enough, Committed;
    TabFits(s.shop);
    OrdersAreWrittenExactlyWhen(s, id);
    OrderedMeansCommitted(s, id);
    TabTakes(s.shop, id, s.sessions[id].buyerId, s.sessions[id].stage.payment, Next(s, WriteOrders(id)).shop);
  }

  lemma {:induction false} SumByConcat(a: seq<Line>, b: seq<Line>, f: Line -> int)
    ensures SumBy(a + b, f) == SumBy(a, f) + SumBy(b, f)
    decreases |b|
  {
    if b == [] {
      assert a + b == a;
    } else {
      var rest, last := b[..|b| - 1], b[|b| - 1];
      assert a + b == (a + rest) + [last] && b == rest + [last];
      SumByConcat(a, rest, f);
      SumByAppend(a + rest, last, f);
      SumByAppend(rest, last, f);
    }
  }

  lemma {:induction false} IdsConcat(a: seq<Line>, b: seq<Line>)
    ensures ProductIds(a + b) == ProductIds(a) + ProductIds(b)
    decreases |b|
  {
    if b == [] {
      assert a + b == a && ProductIds(b) == {};
    } else {
      var rest, last := b[..|b| - 1], b[|b| - 1];
      assert a + b == (a + rest) + [last] && b == rest + [last];
      IdsConcat(a, rest);
      OneMoreId(a + rest, last);
      OneMoreId(rest, last);
    }
  }

  /** What is left after one set of lines is enough for another exactly when there was enough for the two together. */
  lemma {:induction false} EnoughForBoth(products: map<ProductId, Product>, first: seq<Line>, second: seq<Line>)
    requires PositiveLines(first) && PositiveLines(second) && DecrementAll(products, first).Some?
    ensures Enough(MarkSoldOut(DecrementAll(products, first).value, ProductIds(first)), second) <==>
        Enough(products, first + second)
  {
    DecrementTakes(products, first);
    DecrementSucceedsExactly(products, first);
    IdsConcat(first, second);
    var taken := DecrementAll(products, first).value;
    var left := MarkSoldOut(taken, ProductIds(first));
    forall p: ProductId
      ensures SumBy(first + second, UnitsFor(p)) == SumBy(first, UnitsFor(p)) + SumBy(second, UnitsFor(p))
      ensures SumBy(first, UnitsFor(p)) >= 0 && (SumBy(first, UnitsFor(p)) > 0 <==> p in ProductIds(first))
      ensures SumBy(second, UnitsFor(p)) >= 0 && (SumBy(second, UnitsFor(p)) > 0 <==> p in ProductIds(second))
    {
      SumByConcat(first, second, UnitsFor(p));
      SumOfUnits(first, p);
      SumOfUnits(second, p);
    }
    hide SumBy, ProductIds, DecrementAll;
    forall p | p in ProductIds(second)
      ensures (p in left && left[p].status == ACTIVE && SumBy(second, UnitsFor(p)) <= left[p].stockQty)
              <==> (p in products && products[p].status == ACTIVE
                  && SumBy(first + second, UnitsFor(p)) <= products[p].stockQty)
    {
    }
    forall p | p in ProductIds(first) && p !in ProductIds(second)
      ensures p in products && products[p].status == ACTIVE
          && SumBy(first + second, UnitsFor(p)) <= products[p].stockQty
    {
    }
    hide MarkSoldOut, Taken;
  }

  lemma {:induction false} CartLinesAreNoLots(shop: Shop, session: Session, lines: seq<Line>, i: nat)
    requires LinesOk(shop, session, lines) && i < |lines| && lines[i].cartItemId.Some?
    ensures NoLots(lines) && PositiveLines(lines)
  {
    assert LineOk(shop, session.buyerId, lines[i]);
    LinesAreFine(shop, session, lines);
    hide LineOk;
  }

  lemma {:induction false} NoLotsAreFree(orders: seq<Order>, lines: seq<Line>)
    requires NoLots(lines)
    ensures LotsFree(orders, lines)
  {
    hide LotPaid;
  }

  lemma {:induction false} EnoughOfFirst(products: map<ProductId, Product>, first: seq<Line>, second: seq<Line>)
    requires PositiveLines(first) && PositiveLines(second) && Enough(products, first + second)
    ensures Enough(products, first)
  {
    IdsConcat(first, second);
    forall p | p in ProductIds(first)
      ensures p in products && products[p].status == ACTIVE && SumBy(first, UnitsFor(p)) <= products[p].stockQty
    {
      assert p in ProductIds(first + second);
      SumByConcat(first, second, UnitsFor(p));
      SumOfUnits(second, p);
    }
  }

  lemma {:induction false} WhatIsLeft(s: ShopSystem, id: SessionId)
    requires id in s.sessions && s.sessions[id].stage.Charged?
    requires Next(s, WriteOrders(id)).sessions[id].stage.Ordered?
    ensures
      var lines := s.sessions[id].stage.lines;
      && DecrementAll(s.shop.products, lines).Some?
      && Next(s, WriteOrders(id)).shop.products
          == MarkSoldOut(DecrementAll(s.shop.products, lines).value, ProductIds(lines))
  {
    OrderedMeansCommitted(s, id);
    hide Next, Committed, DecrementAll, MarkSoldOut;
    CommitShape(s.shop, id, s.sessions[id].buyerId, s.sessions[id].stage.payment, s.sessions[id].stage.lines,
        Next(s, WriteOrders(id)).shop);
  }

  /**
   * Clearing cart lines checks no count: of two charged sessions that hold the same
   * cart line, written one after the other, both are ordered exactly when there is
   * enough of every listing for the two sets of lines together.
   */
  lemma {:induction false} BothAreOrderedExactlyWhen(s: ShopSystem, x: SessionId, y: SessionId, i: nat, j: nat)
    requires Reachable(s) && x != y && x in s.sessions && y in s.sessions
    requires s.sessions[x].stage.Charged? && s.sessions[y].stage.Charged?
    requires
      var first, second := s.sessions[x].stage.lines, s.sessions[y].stage.lines;
      i < |first| && j < |second| && first[i].cartItemId.Some? && first[i].cartItemId == second[j].cartItemId
    ensures
      var after := Next(Next(s, WriteOrders(x)), WriteOrders(y));
      && x in after.sessions && y in after.sessions
      && (after.sessions[x].stage.Ordered? && after.sessions[y].stage.Ordered?
          <==> Enough(s.shop.products, s.sessions[x].stage.lines + s.sessions[y].stage.lines))
  {
    var first, second := s.sessions[x].stage.lines, s.sessions[y].stage.lines;
    var mid := Next(s, WriteOrders(x));
    GoodSession(s, x);
    GoodSession(s, y);
    CartLinesAreNoLots(s.shop, s.sessions[x], first, i);
    CartLinesAreNoLots(s.shop, s.sessions[y], second, j);
    ReachableNext(s, WriteOrders(x));
    hide Reachable, Next, LotsFree, Enough, Committed, SessionOk, DecrementAll, MarkSoldOut, NoLots, PositiveLines,
        PaymentsOnce;
    NoLotsAreFree(s.shop.orders, first);
    NoLotsAreFree(mid.shop.orders, second);
    OrdersAreWrittenExactlyWhen(s, x);
    OrderedMeansCommitted(s, x);
    OrdersAreWrittenExactlyWhen(mid, y);
    OrderedMeansCommitted(mid, y);
    if mid.sessions[x].stage.Ordered? {
      WhatIsLeft(s, x);
      EnoughForBoth(s.shop.products, first, second);
    } else if Enough(s.shop.products, first + second) {
      EnoughOfFirst(s.shop.products, first, second);
    }
  }

  /**
   * Clearing cart lines checks no count, so two tabs paying for the same cart
   * line at once are both charged and both get their order; stock is the only limit.
   */
  lemma {:induction false} OneCartIsOrderedTwice()
    ensures
      var s := Next(Next(BothCharged(), WriteOrders(0)), WriteOrders(1));
      && Reachable(s)
      && 0 in s.sessions && 1 in s.sessions
      && s.sessions[0].stage.Ordered? && s.sessions[1].stage.Ordered?
      && s.sessions[0].stage.lines == s.sessions[1].stage.lines == [TAB_LINE]
      && 7 in s.shop.products && s.shop.products[7].stockQty == 0
  {
    BothChargedIsReachable();
    var s0 := BothCharged();
    hide Reachable, Next;
    TabWrites(s0, 0);
    var s1 := Next(s0, WriteOrders(0));
    ReachableNext(s0, WriteOrders(0));
    TabWrites(s1, 1);
    var s2 := Next(s1, WriteOrders(1));
    ReachableNext(s1, WriteOrders(1));
  }
}
