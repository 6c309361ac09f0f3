/** The rows of the shop and the rules over them that write nothing. */
module ShopRules {
  import opened Wrappers
  import opened LineTotal

  type UserId = nat
  type ProductId = nat
  type AuctionId = nat
  type CartItemId = nat
  type OfferId = nat
  type SessionId = nat
  type Millis = int

  datatype ProductStatus = ACTIVE | OUT_OF_STOCK | INACTIVE | REMOVED | SUSPENDED

  datatype Product = Product(
    sellerId: UserId, price: Satang, stockQty: int, status: ProductStatus,
    negotiationFloor: Option<Satang>, rule: QuantityDiscountRule)

  datatype CartItem = CartItem(buyerId: UserId, productId: ProductId, quantity: nat)

  datatype Offer = Offer(buyerId: UserId, productId: ProductId, quantity: nat, amount: Satang, accepted: bool,
      expiresAt: Option<Millis>)

  /** What checkout reads of an auction that ended in a sale. */
  datatype WonLot = WonLot(sellerId: UserId, winnerId: UserId, soldPrice: Satang)

  /** One thing being bought, priced by the server; of productId and auctionId exactly one is set. */
  datatype Line = Line(
    cartItemId: Option<CartItemId>, productId: Option<ProductId>, auctionId: Option<AuctionId>,
    sellerId: UserId, quantity: nat, unitPrice: Satang, subtotal: Satang)

  datatype OrderItem = OrderItem(productId: Option<ProductId>, auctionId: Option<AuctionId>, quantity: nat,
      unitPrice: Satang)

  datatype OrderStatus = PAID | CANCELLED

  datatype ShipmentStatus = SH_PROCESSING | SH_SHIPPED | SH_IN_TRANSIT | SH_DELIVERED | SH_CANCELLED

  datatype Order = Order(
    sessionId: SessionId, sellerId: UserId, buyerId: UserId, payment: nat, subtotal: Satang, status: OrderStatus,
    items: seq<OrderItem>, shipment: ShipmentStatus, shipmentEvents: seq<ShipmentStatus>)

  /** `charged` is the amount the provider was asked for. */
  datatype Payment = Payment(sessionId: SessionId, succeeded: bool, charged: Satang)

  // ---- Stock decides the shelf status ----

  predicate Sellable(status: ProductStatus) { status == ACTIVE || status == OUT_OF_STOCK }

  /** Stock flips ACTIVE and OUT_OF_STOCK only; what a seller or an admin decided stays. */
  function ResolveStatus(current: ProductStatus, stockQty: int): ProductStatus {
    if !Sellable(current) then current else if stockQty > 0 then ACTIVE else OUT_OF_STOCK
  }

  predicate RuleWhole(rule: QuantityDiscountRule) { rule.minQty.Some? <==> rule.percent.Some? }

  // ---- Shipment ----

  predicate CanTransition(from: ShipmentStatus, to: ShipmentStatus) {
    match from
    case SH_PROCESSING => to == SH_SHIPPED || to == SH_CANCELLED
    case SH_SHIPPED => to == SH_IN_TRANSIT
    case SH_IN_TRANSIT => to == SH_DELIVERED
    case SH_DELIVERED => false
    case SH_CANCELLED => false
  }

  // ---- The gate before the charge ----

  datatype IssueCode = PRODUCT_UNAVAILABLE | OWN_LISTING | INSUFFICIENT_STOCK

  datatype CheckoutIssue = CheckoutIssue(code: IssueCode, productId: ProductId, available: Option<int>, requested: nat)

  /** Why this buyer cannot buy this many of this product now; the first reason only. */
  function IssueOf(buyerId: UserId, item: CartItem, product: Product): Option<CheckoutIssue> {
    if product.status != ACTIVE then Some(CheckoutIssue(PRODUCT_UNAVAILABLE, item.productId, None, item.quantity))
    else if product.sellerId == buyerId then Some(CheckoutIssue(OWN_LISTING, item.productId, None, item.quantity))
    else if item.quantity > product.stockQty then
      Some(CheckoutIssue(INSUFFICIENT_STOCK, item.productId, Some(product.stockQty), item.quantity))
    else None
  }

  /** One issue for each line that cannot be bought, in cart order. */
  function Issues(buyerId: UserId, lines: seq<(CartItem, Product)>): seq<CheckoutIssue> {
    if lines == [] then []
    else
      var last := lines[|lines| - 1];
      var issue := IssueOf(buyerId, last.0, last.1);
      Issues(buyerId, lines[..|lines| - 1]) + if issue.Some? then [issue.value] else []
  }

  predicate Buyable(buyerId: UserId, item: CartItem, product: Product) {
    product.status == ACTIVE && product.sellerId != buyerId && item.quantity <= product.stockQty
  }

  /** No issues exactly when every line can be bought; never more issues than lines. */
  lemma {:induction false} NoIssuesMeansBuyable(buyerId: UserId, lines: seq<(CartItem, Product)>)
    ensures Issues(buyerId, lines) == [] <==> forall i | 0 <= i < |lines| :: Buyable(buyerId, lines[i].0, lines[i].1)
    ensures |Issues(buyerId, lines)| <= |lines|
    decreases |lines|
  {
    if lines != [] {
      var last := |lines| - 1;
      NoIssuesMeansBuyable(buyerId, lines[..last]);
      assert forall i | 0 <= i < last :: lines[..last][i] == lines[i];
      assert Issues(buyerId, lines) == [] ==> Buyable(buyerId, lines[last].0, lines[last].1);
    }
  }

  // ---- Sums over lines ----

  function SumBy(lines: seq<Line>, f: Line -> int): int {
    if lines == [] then 0 else SumBy(lines[..|lines| - 1], f) + f(lines[|lines| - 1])
  }

  function Subtotals(): Line -> int { (line: Line) => line.subtotal }

  function UnitsFor(p: ProductId): Line -> int { (line: Line) => if line.productId == Some(p) then line.quantity
      else 0 }

  lemma {:induction false} SumByAppend(lines: seq<Line>, line: Line, f: Line -> int)
    ensures SumBy(lines + [line], f) == SumBy(lines, f) + f(line)
  {
    assert (lines + [line])[..|lines|] == lines;
  }

  // ---- One order per seller ----

  datatype Group = Group(sellerId: UserId, lines: seq<Line>)

  function FindGroup(groups: seq<Group>, sellerId: UserId): (k: Option<nat>)
    ensures k.Some? ==> k.value < |groups| && groups[k.value].sellerId == sellerId
    ensures k.None? ==> forall i | 0 <= i < |groups| :: groups[i].sellerId != sellerId
  {
    if groups == [] then None
    else
      var last := |groups| - 1;
      if groups[last].sellerId == sellerId then Some(last) else FindGroup(groups[..last], sellerId)
  }

  function AddToGroups(groups: seq<Group>, line: Line): seq<Group> {
    var k := FindGroup(groups, line.sellerId);
    if k.Some? then groups[k.value := Group(line.sellerId, groups[k.value].lines + [line])]
    else groups + [Group(line.sellerId, [line])]
  }

  /** The lines by seller, sellers in order of first appearance. */
  function GroupBySeller(lines: seq<Line>): seq<Group> {
    if lines == [] then [] else AddToGroups(GroupBySeller(lines[..|lines| - 1]), lines[|lines| - 1])
  }

  function LinesOf(lines: seq<Line>, sellerId: UserId): seq<Line> {
    if lines == [] then []
    else
      var last := |lines| - 1;
      LinesOf(lines[..last], sellerId) + if lines[last].sellerId == sellerId then [lines[last]] else []
  }

  ghost predicate OnePerSeller(groups: seq<Group>) {
    forall i, j | 0 <= i < j < |groups| :: groups[i].sellerId != groups[j].sellerId
  }

  ghost predicate Partitioned(groups: seq<Group>, lines: seq<Line>) {
    && OnePerSeller(groups)
    && (forall k | 0 <= k < |groups| :: groups[k].lines != [] && groups[k].lines == LinesOf(lines, groups[k].sellerId))
    && (forall i | 0 <= i < |lines| :: HasGroup(groups, lines[i].sellerId))
  }

  ghost predicate HasGroup(groups: seq<Group>, sellerId: UserId) {
    exists k | 0 <= k < |groups| :: groups[k].sellerId == sellerId
  }

  lemma {:induction false} NothingPartitions()
    ensures Partitioned([], [])
  {
  }

  /** Each seller has one group, holding that seller's lines in order and nothing else; no line is left out. */
  lemma {:induction false} GroupingPartitions(lines: seq<Line>)
    ensures Partitioned(GroupBySeller(lines), lines)
    decreases |lines|
  {
    hide Partitioned, AddToGroups, FindGroup;
    if lines == [] {
      NothingPartitions();
    } else {
      var last := |lines| - 1;
      var before := GroupBySeller(lines[..last]);
      assert GroupBySeller(lines) == AddToGroups(before, lines[last]);
      hide GroupBySeller;
      GroupingPartitions(lines[..last]);
      GroupingStep(before, lines[..last], lines[last]);
      assert lines == lines[..last] + [lines[last]];
    }
  }

  lemma {:induction false} LinesOfAppend(lines: seq<Line>, line: Line, sellerId: UserId)
    ensures LinesOf(lines + [line], sellerId) == LinesOf(lines, sellerId) + if line.sellerId == sellerId then [line]
        else []
  {
    assert (lines + [line])[..|lines|] == lines;
  }

  lemma {:induction false} NoGroupNoLines(lines: seq<Line>, sellerId: UserId)
    requires forall i | 0 <= i < |lines| :: lines[i].sellerId != sellerId
    ensures LinesOf(lines, sellerId) == []
    decreases |lines|
  {
    if lines != [] {
      NoGroupNoLines(lines[..|lines| - 1], sellerId);
    }
  }

  lemma {:induction false} GroupOf(groups: seq<Group>, lines: seq<Line>, i: nat) returns (g: nat)
    requires Partitioned(groups, lines) && i < |lines|
    ensures g < |groups| && groups[g].sellerId == lines[i].sellerId
  {
    hide LinesOf, OnePerSeller;
    assert HasGroup(groups, lines[i].sellerId);
    var k :| 0 <= k < |groups| && groups[k].sellerId == lines[i].sellerId;
    g := k;
  }

  lemma {:induction false} AddedGroup(groups: seq<Group>, line: Line, g: nat)
    ensures
      var k := FindGroup(groups, line.sellerId);
      var after := AddToGroups(groups, line);
      && |after| == (if k.Some? then |groups| else |groups| + 1)
      && (g < |after| ==>
            after[g] == if g < |groups| && k != Some(g) then groups[g]
                        else Group(line.sellerId, (if g < |groups| then groups[g].lines else []) + [line]))
  {
    hide FindGroup;
  }

  lemma {:induction false} AddedApart(groups: seq<Group>, line: Line)
    requires OnePerSeller(groups)
    ensures OnePerSeller(AddToGroups(groups, line))
  {
    hide AddToGroups, FindGroup;
    var after := AddToGroups(groups, line);
    forall i, j | 0 <= i < j < |after|
      ensures after[i].sellerId != after[j].sellerId
    {
      AddedGroup(groups, line, i);
      AddedGroup(groups, line, j);
    }
  }

  lemma {:induction false} AddedLines(groups: seq<Group>, lines: seq<Line>, line: Line, g: nat)
    requires Partitioned(groups, lines) && g < |AddToGroups(groups, line)|
    ensures
      var group := AddToGroups(groups, line)[g];
      group.lines != [] && group.lines == LinesOf(lines + [line], group.sellerId)
  {
    AddedGroup(groups, line, g);
    if FindGroup(groups, line.sellerId).None? {
      forall i | 0 <= i < |lines|
        ensures lines[i].sellerId != line.sellerId
      {
        var h := GroupOf(groups, lines, i);
      }
      NoGroupNoLines(lines, line.sellerId);
    }
    hide LinesOf, FindGroup, AddToGroups;
    LinesOfAppend(lines, line, AddToGroups(groups, line)[g].sellerId);
  }

  lemma {:induction false} AddedCovers(groups: seq<Group>, lines: seq<Line>, line: Line, i: nat) returns (g: nat)
    requires Partitioned(groups, lines) && i <= |lines|
    ensures g < |AddToGroups(groups, line)| && AddToGroups(groups, line)[g].sellerId == (lines + [line])[i].sellerId
  {
    if i < |lines| {
      g := GroupOf(groups, lines, i);
    } else {
      var k := FindGroup(groups, line.sellerId);
      g := if k.Some? then k.value else |groups|;
    }
    AddedGroup(groups, line, g);
    hide Partitioned, FindGroup, AddToGroups;
  }

  lemma {:induction false} GroupingStep(groups: seq<Group>, lines: seq<Line>, line: Line)
    requires Partitioned(groups, lines)
    ensures Partitioned(AddToGroups(groups, line), lines + [line])
  {
    AddedApart(groups, line);
    hide LinesOf, FindGroup, AddToGroups, OnePerSeller;
    var after := AddToGroups(groups, line);
    var all := lines + [line];
    forall g | 0 <= g < |after|
      ensures after[g].lines != [] && after[g].lines == LinesOf(all, after[g].sellerId)
    {
      AddedLines(groups, lines, line, g);
    }
    forall i | 0 <= i < |all|
      ensures HasGroup(after, all[i].sellerId)
    {
      var g := AddedCovers(groups, lines, line, i);
    }
  }

  function GroupSum(groups: seq<Group>, f: Line -> int): int {
    if groups == [] then 0 else GroupSum(groups[..|groups| - 1], f) + SumBy(groups[|groups| - 1].lines, f)
  }

  lemma {:induction false} GroupSumUpdate(groups: seq<Group>, k: nat, g: Group, f: Line -> int)
    requires k < |groups|
    ensures GroupSum(groups[k := g], f) == GroupSum(groups, f) - SumBy(groups[k].lines, f) + SumBy(g.lines, f)
    decreases |groups|
  {
    var last := |groups| - 1;
    if k == last {
      assert groups[k := g][..last] == groups[..last];
    } else {
      assert groups[k := g][..last] == groups[..last][k := g];
      GroupSumUpdate(groups[..last], k, g, f);
    }
  }

  lemma {:induction false} GroupSumAdds(groups: seq<Group>, line: Line, f: Line -> int)
    ensures GroupSum(AddToGroups(groups, line), f) == GroupSum(groups, f) + f(line)
  {
    var k := FindGroup(groups, line.sellerId);
    hide FindGroup, SumBy;
    if k.Some? {
      var group := Group(line.sellerId, groups[k.value].lines + [line]);
      GroupSumUpdate(groups, k.value, group, f);
      SumByAppend(groups[k.value].lines, line, f);
    } else {
      var after := groups + [Group(line.sellerId, [line])];
      assert after[..|groups|] == groups;
      SumOfOne(line, f);
    }
  }

  lemma {:induction false} SumOfOne(line: Line, f: Line -> int)
    ensures SumBy([line], f) == f(line)
  {
    assert [line][..0] == [];
  }

  /** Grouping loses nothing: any measure of the lines adds up to the same over the groups. */
  lemma {:induction false} GroupingKeepsSums(lines: seq<Line>, f: Line -> int)
    ensures GroupSum(GroupBySeller(lines), f) == SumBy(lines, f)
    decreases |lines|
  {
    hide AddToGroups;
    if lines != [] {
      hide GroupSum;
      var last := |lines| - 1;
      GroupingKeepsSums(lines[..last], f);
      GroupSumAdds(GroupBySeller(lines[..last]), lines[last], f);
    }
  }

  // ---- Order items ----

  function ItemsOf(lines: seq<Line>): (items: seq<OrderItem>)
    ensures |items| == |lines|
    ensures forall i | 0 <= i < |lines| ::
              items[i] == OrderItem(lines[i].productId, lines[i].auctionId, lines[i].quantity, lines[i].unitPrice)
  {
    seq(|lines|, i requires 0 <= i < |lines| =>
      OrderItem(lines[i].productId, lines[i].auctionId, lines[i].quantity, lines[i].unitPrice))
  }

  function ItemUnits(items: seq<OrderItem>, p: ProductId): nat {
    if items == [] then 0
    else
      var last := |items| - 1;
      ItemUnits(items[..last], p) + if items[last].productId == Some(p) then items[last].quantity else 0
  }

  function ItemsValue(items: seq<OrderItem>): int {
    if items == [] then 0
    else
      var last := |items| - 1;
      ItemsValue(items[..last]) + items[last].unitPrice * items[last].quantity
  }

  lemma {:induction false} ItemsCarryTheLines(lines: seq<Line>, p: ProductId)
    ensures ItemUnits(ItemsOf(lines), p) == SumBy(lines, UnitsFor(p))
    ensures (forall i | 0 <= i < |lines| :: lines[i].subtotal == lines[i].unitPrice * lines[i].quantity) ==>
              ItemsValue(ItemsOf(lines)) == SumBy(lines, Subtotals())
    decreases |lines|
  {
    if lines != [] {
      var last := |lines| - 1;
      ItemsCarryTheLines(lines[..last], p);
      assert ItemsOf(lines)[..last] == ItemsOf(lines[..last]);
    }
  }

  /** Units of a product in orders that were not cancelled. */
  function UnitsOut(orders: seq<Order>, p: ProductId): nat {
    if orders == [] then 0
    else
      var last := |orders| - 1;
      UnitsOut(orders[..last], p) + OrderUnits(orders[last], p)
  }

  function OrderUnits(order: Order, p: ProductId): nat {
    if order.status == CANCELLED then 0 else ItemUnits(order.items, p)
  }

  lemma {:induction false} UnitsOutAppend(orders: seq<Order>, order: Order, p: ProductId)
    ensures UnitsOut(orders + [order], p) == UnitsOut(orders, p) + OrderUnits(order, p)
  {
    assert (orders + [order])[..|orders|] == orders;
  }

  lemma {:induction false} UnitsOutUpdate(orders: seq<Order>, k: nat, order: Order, p: ProductId)
    requires k < |orders|
    ensures UnitsOut(orders[k := order], p) == UnitsOut(orders, p) - OrderUnits(orders[k], p) + OrderUnits(order, p)
    decreases |orders|
  {
    var last := |orders| - 1;
    if k == last {
      assert orders[k := order][..last] == orders[..last];
    } else {
      assert orders[k := order][..last] == orders[..last][k := order];
      UnitsOutUpdate(orders[..last], k, order, p);
    }
  }

  // ---- References to a product ----

  predicate Mentions(items: seq<OrderItem>, p: ProductId) {
    exists i | 0 <= i < |items| :: items[i].productId == Some(p)
  }

  /** Some order that was not cancelled has a line for this product. */
  predicate Referenced(orders: seq<Order>, p: ProductId) {
    exists k | 0 <= k < |orders| :: orders[k].status != CANCELLED && Mentions(orders[k].items, p)
  }

  ghost predicate PositiveItems(items: seq<OrderItem>) {
    forall i | 0 <= i < |items| :: items[i].quantity >= 1
  }

  lemma {:induction false} MentionedMeansUnits(items: seq<OrderItem>, p: ProductId)
    requires PositiveItems(items)
    ensures Mentions(items, p) <==> ItemUnits(items, p) > 0
    decreases |items|
  {
    if items != [] {
      var last := |items| - 1;
      MentionedMeansUnits(items[..last], p);
      if i :| 0 <= i < |items| && items[i].productId == Some(p) {
        assert i < last ==> items[..last][i].productId == Some(p);
      }
      if Mentions(items[..last], p) {
        var i :| 0 <= i < last && items[..last][i].productId == Some(p);
        assert items[i].productId == Some(p);
      }
    }
  }

  lemma {:induction false} ReferencedMeansUnits(orders: seq<Order>, p: ProductId)
    requires forall k | 0 <= k < |orders| :: PositiveItems(orders[k].items)
    ensures Referenced(orders, p) <==> UnitsOut(orders, p) > 0
    decreases |orders|
  {
    hide Mentions, ItemUnits, PositiveItems;
    if orders != [] {
      var last := |orders| - 1;
      ReferencedMeansUnits(orders[..last], p);
      MentionedMeansUnits(orders[last].items, p);
      if k :| 0 <= k < |orders| && orders[k].status != CANCELLED && Mentions(orders[k].items, p) {
        assert k < last ==> orders[..last][k].status != CANCELLED && Mentions(orders[..last][k].items, p);
      }
      if Referenced(orders[..last], p) {
        var k :| 0 <= k < last && orders[..last][k].status != CANCELLED && Mentions(orders[..last][k].items, p);
        assert orders[k].status != CANCELLED && Mentions(orders[k].items, p);
      }
    }
  }
}
