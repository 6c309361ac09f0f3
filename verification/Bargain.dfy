/**
 * Haggling and checkout over one database: an agreed price that was paid was
 * agreed to, at or above the floor the seller had set when it was asked for.
 */
module Bargain {
  import opened Wrappers
  import opened ShopRules
  import opened ShopSteps
  import opened ShopInvariant
  import opened ShopReachable
  import opened ShopTheorems
  import ShopRuns
  import Negotiator

  /** A request for a price: what it read of the listing and of the earlier offers. It stays on record. */
  datatype Asked = Asked(buyerId: UserId, productId: ProductId, request: Negotiator.Request, seen: seq<Negotiator.Row>)

  datatype World = World(shop: ShopRuns.ShopSystem, asked: map<OfferId, Asked>,
      book: map<(UserId, ProductId), seq<Negotiator.Row>>)

  /** Offers come from the negotiation and from nowhere else; between asking and answering anything may happen. */
  datatype Action =
    | OnShop(action: ShopRuns.Action)
    | Ask(o: OfferId, buyerId: UserId, productId: ProductId, quantity: nat, amount: Negotiator.Satang, readAt: Millis,
        checkAt: Millis)
    | Answer(o: OfferId, createdAt: Millis)

  const EMPTY: World := World(ShopRuns.EMPTY, map[], map[])

  function ListingOf(product: Product, buyerId: UserId): Negotiator.Listing {
    Negotiator.Listing(product.status == ACTIVE, product.sellerId == buyerId, product.price, product.stockQty,
        product.negotiationFloor)
  }

  function BookOf(w: World, buyerId: UserId, p: ProductId): seq<Negotiator.Row> {
    if (buyerId, p) in w.book then w.book[(buyerId, p)] else []
  }

  function OfferOf(asked: Asked, row: Negotiator.Row): Offer {
    Offer(asked.buyerId, asked.productId, row.quantity, row.amount, row.decision == Negotiator.ACCEPTED, row.expiresAt)
  }

  ghost function Next(w: World, action: Action): World {
    match action
    case OnShop(a) => if a.RecordOffer? then w else w.(shop := ShopRuns.Next(w.shop, a))
    case Ask(o, buyerId, p, quantity, amount, readAt, checkAt) =>
      if o in w.asked || o in w.shop.shop.offers || p !in w.shop.shop.products || quantity == 0 then w
      else
        w.(asked := w.asked[o := Asked(buyerId, p,
          Negotiator.Request(ListingOf(w.shop.shop.products[p], buyerId), quantity, amount, readAt, checkAt, checkAt),
              BookOf(w, buyerId, p))])
    case Answer(o, createdAt) =>
      if o !in w.asked || o in w.shop.shop.offers then w
      else
        var asked := w.asked[o];
        var r := Negotiator.Negotiate(asked.seen, asked.request.(createdAt := createdAt));
        if r.Err? then w
        else
          World(ShopRuns.Next(w.shop, ShopRuns.RecordOffer(o, OfferOf(asked, r.value))), w.asked,
                w.book[(asked.buyerId, asked.productId) := BookOf(w, asked.buyerId, asked.productId) + [r.value]])
  }

  ghost function Run(actions: seq<Action>): World {
    if actions == [] then EMPTY else Next(Run(actions[..|actions| - 1]), actions[|actions| - 1])
  }

  /**
   * A request for a price reads the listing as it stands and this buyer's offers on it so far, and
   * writes nothing of the shop.
   */
  lemma {:induction false} AskedExactlyWhen(w: World, o: OfferId, buyerId: UserId, p: ProductId, quantity: nat,
      amount: Negotiator.Satang, readAt: Millis, checkAt: Millis)
    requires o !in w.asked && o !in w.shop.shop.offers
    ensures
      var after := Next(w, Ask(o, buyerId, p, quantity, amount, readAt, checkAt));
      && after.shop == w.shop && after.book == w.book
      && (o in after.asked <==> p in w.shop.shop.products && quantity >= 1)
      && (o in after.asked ==>
            var asked, product := after.asked[o], w.shop.shop.products[p];
            && after.asked == w.asked[o := asked]
            && asked.buyerId == buyerId && asked.productId == p
            && asked.request.quantity == quantity && asked.request.amount == amount
            && asked.request.readAt == readAt && asked.request.checkAt == checkAt
            && (asked.request.listing.active <==> product.status == ACTIVE)
            && (asked.request.listing.ownedByBuyer <==> product.sellerId == buyerId)
            && asked.request.listing.price == product.price && asked.request.listing.stockQty == product.stockQty
            && asked.request.listing.floor == product.negotiationFloor
            && asked.seen == if (buyerId, p) in w.book then w.book[(buyerId, p)] else [])
  {
  }

  /** What an offer on record owes to the request it answers. */
  ghost predicate Answers(asked: Asked, offer: Offer) {
    && offer.buyerId == asked.buyerId && offer.productId == asked.productId
    && offer.quantity == asked.request.quantity && offer.amount == asked.request.amount
    && (offer.accepted ==>
          && asked.request.listing.active && !asked.request.listing.ownedByBuyer
          && asked.request.listing.floor.Some? && offer.amount >= asked.request.listing.floor.value
          && offer.quantity <= asked.request.listing.stockQty)
  }

  ghost predicate OnRecord(w: World) {
    && Reachable(w.shop)
    && forall o | o in w.shop.shop.offers :: o in w.asked && Answers(w.asked[o], w.shop.shop.offers[o])
  }

  lemma {:induction false} AcceptedIsFair(asked: Asked, createdAt: Millis)
    ensures
      var r := Negotiator.Negotiate(asked.seen, asked.request.(createdAt := createdAt));
      r.Ok? ==> Answers(asked, OfferOf(asked, r.value))
  {
    hide Negotiator.Recent, Negotiator.FindOutstandingCounter, Negotiator.AssertWithinRateLimit;
  }

  lemma {:induction false} OffersKeepTerms(before: Shop, after: Shop, except: set<SessionId>, o: OfferId, asked: Asked)
    requires Grows(before, after, except) && o in before.offers && Answers(asked, before.offers[o])
    ensures o in after.offers && Answers(asked, after.offers[o])
  {
    hide SameReceipt, ShopRuns.Extends;
  }

  lemma {:induction false} ShopKeepsRecord(w: World, a: ShopRuns.Action)
    requires OnRecord(w) && !a.RecordOffer?
    ensures OnRecord(w.(shop := ShopRuns.Next(w.shop, a)))
  {
    hide Reachable, ShopRuns.Next, Answers, Grows, Inv;
    ReachableNext(w.shop, a);
    ReachableIsGood(w.shop);
    NextKeeps(w.shop, a);
    TablesLeftAlone(w.shop, a);
    var after := ShopRuns.Next(w.shop, a);
    forall o | o in after.shop.offers
      ensures o in w.asked && Answers(w.asked[o], after.shop.offers[o])
    {
      OffersKeepTerms(w.shop.shop, after.shop, WritesFor(a), o, w.asked[o]);
    }
  }

  lemma {:induction false} AnswerKeepsRecord(w: World, o: OfferId, createdAt: Millis)
    requires OnRecord(w)
    ensures OnRecord(Next(w, Answer(o, createdAt)))
  {
    hide Reachable, Answers, Negotiator.Negotiate;
    if o in w.asked && o !in w.shop.shop.offers {
      var asked := w.asked[o];
      var r := Negotiator.Negotiate(asked.seen, asked.request.(createdAt := createdAt));
      if r.Ok? {
        AcceptedIsFair(asked, createdAt);
        ReachableNext(w.shop, ShopRuns.RecordOffer(o, OfferOf(asked, r.value)));
      }
    }
  }

  lemma {:induction false} RecordsOffer(w: World, o: OfferId, createdAt: Millis)
    requires o in w.asked && o !in w.shop.shop.offers
    requires w.asked[o].request.quantity >= 1 && w.asked[o].productId in w.shop.shop.products
    ensures
      var asked := w.asked[o];
      var r := Negotiator.Negotiate(asked.seen, asked.request.(createdAt := createdAt));
      var after := Next(w, Answer(o, createdAt));
      && (r.Err? ==> after == w)
      && (r.Ok? ==>
            && o in after.shop.shop.offers
            && after.shop.shop.offers[o] ==
                 Offer(asked.buyerId, asked.productId, r.value.quantity, r.value.amount,
                       r.value.decision == Negotiator.ACCEPTED, r.value.expiresAt)
            && BookOf(after, asked.buyerId, asked.productId) == BookOf(w, asked.buyerId, asked.productId) + [r.value])
  {
    AcceptedIsFair(w.asked[o], createdAt);
    hide Negotiator.Negotiate;
  }

  lemma {:induction false} EmptyIsOnRecord()
    ensures OnRecord(EMPTY)
  {
    assert ShopRuns.Run(ShopRuns.EMPTY, []) == ShopRuns.EMPTY;
  }

  lemma {:induction false} RunIsOnRecord(actions: seq<Action>)
    ensures OnRecord(Run(actions))
    decreases |actions|
  {
    hide OnRecord;
    if actions == [] {
      EmptyIsOnRecord();
    } else {
      var before := Run(actions[..|actions| - 1]);
      RunIsOnRecord(actions[..|actions| - 1]);
      match actions[|actions| - 1] {
        case OnShop(a) => if !a.RecordOffer? { ShopKeepsRecord(before, a); }
        case Ask(o, buyerId, p, quantity, amount, readAt, checkAt) =>
          AskKeepsRecord(before, o, buyerId, p, quantity, amount, readAt, checkAt);
        case Answer(o, createdAt) => AnswerKeepsRecord(before, o, createdAt);
      }
    }
  }

  lemma {:induction false} AskKeepsRecord(w: World, o: OfferId, buyerId: UserId, p: ProductId, quantity: nat,
      amount: Negotiator.Satang, readAt: Millis, checkAt: Millis)
    requires OnRecord(w)
    ensures OnRecord(Next(w, Ask(o, buyerId, p, quantity, amount, readAt, checkAt)))
  {
    hide Reachable, Answers;
  }

  lemma {:induction false} ListingsStay(w: World, action: Action, p: ProductId)
    requires OnRecord(w) && p in w.shop.shop.products
    ensures p in Next(w, action).shop.shop.products
  {
    hide Reachable, Answers, Negotiator.Negotiate, Grows, ShopRuns.Next, Books;
    ReachableIsGood(w.shop);
    match action {
      case OnShop(a) =>
        NextKeeps(w.shop, a);
        RowStays(w.shop.shop, ShopRuns.Next(w.shop, a).shop, WritesFor(a), p);
      case Ask(_, _, _, _, _, _, _) =>
      case Answer(o, createdAt) =>
        if o in w.asked {
          var asked := w.asked[o];
          var r := Negotiator.Negotiate(asked.seen, asked.request.(createdAt := createdAt));
          if r.Ok? {
            var record := ShopRuns.RecordOffer(o, OfferOf(asked, r.value));
            NextKeeps(w.shop, record);
            RowStays(w.shop.shop, ShopRuns.Next(w.shop, record).shop, WritesFor(record), p);
          }
        }
    }
  }

  lemma {:induction false} RowStays(before: Shop, after: Shop, except: set<SessionId>, p: ProductId)
    requires Grows(before, after, except) && p in before.products
    ensures p in after.products
  {
    hide SameReceipt, SameOffer, ShopRuns.Extends;
  }

  lemma {:induction false} AskedIsSensible(actions: seq<Action>, o: OfferId)
    requires o in Run(actions).asked
    ensures Run(actions).asked[o].request.quantity >= 1
    ensures Run(actions).asked[o].productId in Run(actions).shop.shop.products
    decreases |actions|
  {
    if actions != [] {
      var last := |actions| - 1;
      var before := Run(actions[..last]);
      hide ShopRuns.Next, Negotiator.Negotiate, OnRecord;
      RunIsOnRecord(actions[..last]);
      if o in before.asked {
        AskedIsSensible(actions[..last], o);
        ListingsStay(before, actions[last], before.asked[o].productId);
      }
    }
  }

  /**
   * Over every run: an answer that is no refusal is on record at once, with its
   * terms, and joins that buyer's offers on that listing; a refusal leaves nothing.
   */
  lemma {:induction false} AnswersAreRecorded(actions: seq<Action>, o: OfferId, createdAt: Millis)
    requires o in Run(actions).asked && o !in Run(actions).shop.shop.offers
    ensures
      var w := Run(actions);
      var asked := w.asked[o];
      var r := Negotiator.Negotiate(asked.seen, asked.request.(createdAt := createdAt));
      var after := Next(w, Answer(o, createdAt));
      && (r.Err? ==> after == w)
      && (r.Ok? ==>
            && o in after.shop.shop.offers
            && after.shop.shop.offers[o] ==
                 Offer(asked.buyerId, asked.productId, r.value.quantity, r.value.amount,
                       r.value.decision == Negotiator.ACCEPTED, r.value.expiresAt)
            && BookOf(after, asked.buyerId, asked.productId) == BookOf(w, asked.buyerId, asked.productId) + [r.value])
  {
    hide Run, Next, Negotiator.Negotiate;
    AskedIsSensible(actions, o);
    RecordsOffer(Run(actions), o, createdAt);
  }

  /** At this point of the run the listing stood as the request says it read it. */
  ghost predicate StoodThen(actions: seq<Action>, j: nat, asked: Asked) {
    && j <= |actions|
    && asked.productId in Run(actions[..j]).shop.shop.products
    && asked.request.listing == ListingOf(Run(actions[..j]).shop.shop.products[asked.productId], asked.buyerId)
  }

  lemma {:induction false} AskedNow(w: World, action: Action, o: OfferId)
    requires o in Next(w, action).asked
    ensures o in w.asked ==> Next(w, action).asked[o] == w.asked[o]
    ensures o !in w.asked ==>
              var asked := Next(w, action).asked[o];
              && asked.productId in w.shop.shop.products
              && asked.request.listing == ListingOf(w.shop.shop.products[asked.productId], asked.buyerId)
  {
    hide ShopRuns.Next, Negotiator.Negotiate;
  }

  lemma {:induction false} AskedWhatStood(actions: seq<Action>, o: OfferId)
    requires o in Run(actions).asked
    ensures exists j: nat :: StoodThen(actions, j, Run(actions).asked[o])
    decreases |actions|
  {
    if actions != [] {
      var last := |actions| - 1;
      var before := actions[..last];
      var asked := Run(actions).asked[o];
      AskedNow(Run(before), actions[last], o);
      assert Run(actions) == Next(Run(before), actions[last]);
      assert actions[..last] == before;
      hide Next, Run;
      if o in Run(before).asked {
        AskedWhatStood(before, o);
        assert asked == Run(before).asked[o];
        var j: nat :| StoodThen(before, j, asked);
        assert before[..j] == actions[..j];
        assert StoodThen(actions, j, asked);
      } else {
        assert StoodThen(actions, last, asked);
      }
    }
  }

  /**
   * From the haggling to the order: an order paid through an offer is the only one,
   * its buyer's, for the listing, the quantity and the amount asked for; and the
   * amount is at or above the floor that stood, on a listing on sale by somebody
   * else, at the point of the run where the request read it.
   */
  lemma {:induction false} PaidOfferWasAgreed(actions: seq<Action>, o: OfferId, k: nat)
    requires ForOffer(Run(actions).shop, o, k)
    ensures o in Run(actions).asked
    ensures
      var asked := Run(actions).asked[o];
      var order := Run(actions).shop.shop.orders[k];
      && order.buyerId == asked.buyerId
      && order.items == [OrderItem(Some(asked.productId), None, asked.request.quantity, asked.request.amount)]
      && exists j: nat :: StoodThen(actions, j, asked)
           && var listing := Run(actions[..j]).shop.shop.products[asked.productId];
              && listing.status == ACTIVE && listing.sellerId != asked.buyerId
              && listing.negotiationFloor.Some? && asked.request.amount >= listing.negotiationFloor.value
    ensures forall l: nat | ForOffer(Run(actions).shop, o, l) :: l == k
  {
    hide Reachable, Run;
    RunIsOnRecord(actions);
    OfferBuysAtMostOnce(Run(actions).shop, o, k);
    AskedWhatStood(actions, o);
    var asked := Run(actions).asked[o];
    assert Answers(asked, Run(actions).shop.shop.offers[o]);
    var j: nat :| StoodThen(actions, j, asked);
  }
}
