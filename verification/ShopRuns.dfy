/**
 * Every run of the shop: checkouts in any number, each between its own steps
 * while sellers edit, admins moderate, parcels move and lots are settled. A
 * listing edit may come in one step, or in the halves it has: a row is read and
 * judged, and later written with no guard.
 */
module ShopRuns {
  import opened Wrappers
  import opened LineTotal
  import opened ShopRules
  import opened ShopSteps

  datatype Stage =
    | Redeemed
    | Priced(lines: seq<Line>)
    | Charged(lines: seq<Line>, payment: nat)
    | Ordered(lines: seq<Line>, payment: nat, first: nat)
    | Refused
    | Declined(lines: seq<Line>, payment: nat)
    | LostAfterCharge(lines: seq<Line>, payment: nat)

  /** One checkout session; `offer` is the accepted offer it redeemed, if it pays an agreed price. */
  datatype Session = Session(buyerId: UserId, offer: Option<OfferId>, stage: Stage)

  type EditId = nat

  /**
   * A listing edit between its read and its write; for a removal `referenced` comes with the count,
   * which is a read of its own.
   */
  datatype OpenEdit = OpenEdit(action: Action, read: Product, referenced: Option<bool>)

  datatype ShopSystem = ShopSystem(shop: Shop, sessions: map<SessionId, Session>, edits: map<EditId, OpenEdit>)

  datatype Action =
    | Create(p: ProductId, sellerId: UserId, price: Satang, stockQty: nat, floor: Option<Satang>,
        rule: QuantityDiscountRule)
    | Update(p: ProductId, sellerId: UserId, patch: ProductPatch)
    | UpdateStatus(p: ProductId, sellerId: UserId, resume: bool)
    | UpdateStock(p: ProductId, sellerId: UserId, stockQty: nat)
    | Remove(p: ProductId, sellerId: UserId)
    | Deactivate(p: ProductId)
    | Reactivate(p: ProductId)
    | PutInCart(item: CartItemId, row: CartItem)
    | DropFromCart(item: CartItemId)
    | RecordOffer(o: OfferId, offer: Offer)
    | SettleLots(sold: map<AuctionId, WonLot>)
    | CheckoutCart(session: SessionId, buyerId: UserId, selected: Option<set<CartItemId>>, items: seq<CartItemId>)
    | CheckoutLot(session: SessionId, buyerId: UserId, a: AuctionId)
    | RedeemOffer(session: SessionId, buyerId: UserId, o: OfferId, now: nat)
    | PriceRedeemed(session: SessionId)
    | Charge(session: SessionId)
    | WriteOrders(session: SessionId)
    | UpdateShipment(k: nat, userId: UserId, expected: ShipmentStatus, next: ShipmentStatus)
    | JudgeEdit(edit: EditId, action: Action)
    | CountReferences(edit: EditId)
    | WriteEdit(edit: EditId)

  const EMPTY: ShopSystem := ShopSystem(Shop(map[], map[], map[], map[], [], []), map[], map[])

  // ---- Listing edits, in the halves they have ----

  /** The actions that change a listing after its creation: a seller's four and an admin's two. */
  predicate Edits(action: Action) {
    action.Update? || action.UpdateStatus? || action.UpdateStock? || action.Remove? || action.Deactivate?
        || action.Reactivate?
  }

  function ListedProduct(action: Action): ProductId
    requires Edits(action)
  {
    match action
    case Update(p, _, _) => p
    case UpdateStatus(p, _, _) => p
    case UpdateStock(p, _, _) => p
    case Remove(p, _) => p
    case Deactivate(p) => p
    case Reactivate(p) => p
  }

  /** What the row, as it was read, has against the edit. */
  predicate TurnedDown(read: Product, action: Action)
    requires Edits(action)
  {
    match action
    case Update(_, sellerId, patch) => !OwnAndOpen(read, sellerId) || !RuleWhole(PatchedRule(read.rule, patch))
    case UpdateStatus(_, sellerId, _) => !OwnAndOpen(read, sellerId)
    case UpdateStock(_, sellerId, _) => !OwnAndOpen(read, sellerId)
    case Remove(_, sellerId) => read.sellerId != sellerId || read.status == SUSPENDED
    case Deactivate(_) => read.status == REMOVED || read.status == SUSPENDED
    case Reactivate(_) => read.status != SUSPENDED
  }

  predicate OwnAndOpen(read: Product, sellerId: UserId) {
    read.sellerId == sellerId && read.status != SUSPENDED && read.status != REMOVED
  }

  /** The columns an edit writes; a column it does not name keeps what it holds by then. */
  datatype RowWrite = RowWrite(
    price: Change<Satang>, stockQty: Change<nat>, status: Change<ProductStatus>,
    negotiationFloor: Change<Satang>, minQty: Change<nat>, percent: Change<nat>)

  function StatusOnly(status: ProductStatus): RowWrite {
    RowWrite(Keep, Keep, Set(status), Keep, Keep, Keep)
  }

  function Resolved(read: Product, stockQty: int): Change<ProductStatus> {
    if Sellable(read.status) then Set(ResolveStatus(read.status, stockQty)) else Keep
  }

  /** What the edit writes, worked out from the row it read and, for a removal, from the count. */
  function WriteOf(read: Product, referenced: bool, action: Action): RowWrite
    requires Edits(action)
  {
    match action
    case Update(_, _, patch) =>
      var stock: int := if patch.stockQty.Set? then patch.stockQty.value else read.stockQty;
      RowWrite(patch.price, patch.stockQty, Resolved(read, stock), patch.negotiationFloor, patch.minQty, patch.percent)
    case UpdateStatus(_, _, resume) =>
      StatusOnly(if !resume then INACTIVE else if read.stockQty > 0 then ACTIVE else OUT_OF_STOCK)
    case UpdateStock(_, _, stockQty) => RowWrite(Keep, Set(stockQty), Resolved(read, stockQty), Keep, Keep, Keep)
    case Remove(_, _) => StatusOnly(if referenced then INACTIVE else REMOVED)
    case Deactivate(_) => StatusOnly(SUSPENDED)
    case Reactivate(_) => StatusOnly(if read.stockQty > 0 then ACTIVE else OUT_OF_STOCK)
  }

  function Changed<T>(c: Change<T>, current: Option<T>): Option<T> {
    if c.Set? then Some(c.value) else current
  }

  /** The write, whenever it comes: it asks nothing of the row it lands on. */
  function Land(now: Product, w: RowWrite): Product {
    now.(price := Apply(w.price, now.price),
         stockQty := if w.stockQty.Set? then w.stockQty.value else now.stockQty,
         status := Apply(w.status, now.status),
         negotiationFloor := Changed(w.negotiationFloor, now.negotiationFloor),
         rule := QuantityDiscountRule(Changed(w.minQty, now.rule.minQty), Changed(w.percent, now.rule.percent)))
  }

  function Landed(shop: Shop, p: ProductId, w: RowWrite): Shop
    requires p in shop.products
  {
    shop.(products := shop.products[p := Land(shop.products[p], w)])
  }

  /** The edit is judged, counted, and has its row to write. */
  predicate Ready(s: ShopSystem, edit: EditId) {
    && edit in s.edits && s.edits[edit].referenced.Some? && Edits(s.edits[edit].action)
    && ListedProduct(s.edits[edit].action) in s.shop.products
  }

  function OpenWrite(s: ShopSystem, edit: EditId): RowWrite
    requires Ready(s, edit)
  {
    WriteOf(s.edits[edit].read, s.edits[edit].referenced.value, s.edits[edit].action)
  }

  function Written(s: ShopSystem, shop: Option<Shop>): ShopSystem {
    if shop.Some? then s.(shop := shop.value) else s
  }

  function Opened(s: ShopSystem, session: SessionId, buyerId: UserId, lines: Option<seq<Line>>): ShopSystem {
    if session in s.sessions then s
    else s.(sessions := s.sessions[session :=
        Session(buyerId, None, if lines.Some? then Priced(lines.value) else Refused)])
  }

  function Moved(s: ShopSystem, session: SessionId, stage: Stage): map<SessionId, Session>
    requires session in s.sessions
  {
    s.sessions[session := s.sessions[session].(stage := stage)]
  }

  ghost function Next(s: ShopSystem, action: Action): ShopSystem {
    match action
    case Create(p, sellerId, price, stockQty, floor, rule) => Written(s,
        CreateStep(s.shop, p, sellerId, price, stockQty, floor, rule))
    case Update(p, sellerId, patch) => Written(s, UpdateStep(s.shop, p, sellerId, patch))
    case UpdateStatus(p, sellerId, resume) => Written(s, UpdateStatusStep(s.shop, p, sellerId, resume))
    case UpdateStock(p, sellerId, stockQty) => Written(s, UpdateStockStep(s.shop, p, sellerId, stockQty))
    case Remove(p, sellerId) => Written(s, RemoveStep(s.shop, p, sellerId))
    case Deactivate(p) => Written(s, DeactivateStep(s.shop, p))
    case Reactivate(p) => Written(s, ReactivateStep(s.shop, p))
    case PutInCart(item, row) =>
      if row.quantity >= 1 && row.productId in s.shop.products
          then s.(shop := s.shop.(cart := s.shop.cart[item := row])) else s
    case DropFromCart(item) => s.(shop := s.shop.(cart := s.shop.cart - {item}))
    case RecordOffer(o, offer) =>
      if o !in s.shop.offers && offer.quantity >= 1 && offer.productId in s.shop.products
      then s.(shop := s.shop.(offers := s.shop.offers[o := offer])) else s
    case SettleLots(sold) =>
      if Extends(s.shop.sold, sold) then s.(shop := s.shop.(sold := sold)) else s
    case CheckoutCart(session, buyerId, selected, items) =>
      if CartRows(s.shop, buyerId, selected, items)
          then Opened(s, session, buyerId, PriceCart(s.shop, buyerId, selected, items)) else s
    case CheckoutLot(session, buyerId, a) => Opened(s, session, buyerId, PriceAuction(s.shop, buyerId, a))
    case RedeemOffer(session, buyerId, o, now) =>
      if session in s.sessions || ConsumeStep(s.shop, o, now).None? then s
      else
        s.(shop := ConsumeStep(s.shop, o, now).value,
            sessions := s.sessions[session := Session(buyerId, Some(o), Redeemed)])
    case PriceRedeemed(session) =>
      if session !in s.sessions || !s.sessions[session].stage.Redeemed? || s.sessions[session].offer.None? then s
      else
        var lines := PriceOffer(s.shop, s.sessions[session].buyerId, s.sessions[session].offer.value);
        s.(sessions := Moved(s, session, if lines.Some? then Priced(lines.value) else Refused))
    case Charge(session) =>
      if session !in s.sessions || !s.sessions[session].stage.Priced? then s
      else
        var lines := s.sessions[session].stage.lines;
        var payment := ChargeOf(session, lines);
        s.(shop := s.shop.(payments := s.shop.payments + [payment]),
           sessions := Moved(s, session, if payment.succeeded then Charged(lines, |s.shop.payments|)
               else Declined(lines, |s.shop.payments|)))
    case WriteOrders(session) =>
      if session !in s.sessions || !s.sessions[session].stage.Charged? then s
      else
        var Charged(lines, payment) := s.sessions[session].stage;
        var result := WriteOrdersStep(s.shop, session, s.sessions[session].buyerId, payment, lines);
        (match result
         case Ok(shop) => s.(shop := shop, sessions := Moved(s, session, Ordered(lines, payment, |s.shop.orders|)))
         case Err(_) => s.(sessions := Moved(s, session, LostAfterCharge(lines, payment))))
    case UpdateShipment(k, userId, expected, next) => Written(s, ShipmentStep(s.shop, k, userId, expected, next))
    case JudgeEdit(edit, action) =>
      if edit in s.edits || !Edits(action) || ListedProduct(action) !in s.shop.products
         || TurnedDown(s.shop.products[ListedProduct(action)], action) then s
      else
        var referenced := if action.Remove? then None else Some(false);
        s.(edits := s.edits[edit := OpenEdit(action, s.shop.products[ListedProduct(action)], referenced)])
    case CountReferences(edit) =>
      if edit !in s.edits || s.edits[edit].referenced.Some? || !Edits(s.edits[edit].action) then s
      else
        var referenced := Referenced(s.shop.orders, ListedProduct(s.edits[edit].action));
        s.(edits := s.edits[edit := s.edits[edit].(referenced := Some(referenced))])
    case WriteEdit(edit) =>
      if !Ready(s, edit) then s
      else
        s.(shop := Landed(s.shop, ListedProduct(s.edits[edit].action), OpenWrite(s, edit)), edits := s.edits - {edit})
  }

  /** Lots already sold stay as they are; others may have been settled since. */
  ghost predicate Extends(before: map<AuctionId, WonLot>, after: map<AuctionId, WonLot>) {
    forall a | a in before :: a in after && after[a] == before[a]
  }

  /** The state after any number of steps. */
  ghost function Run(s: ShopSystem, actions: seq<Action>): ShopSystem {
    if actions == [] then s else Next(Run(s, actions[..|actions| - 1]), actions[|actions| - 1])
  }
}
