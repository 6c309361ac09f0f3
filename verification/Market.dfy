/**
 * Auctions and shop over one database: the shop sees a won lot exactly when
 * settlement wrote it.
 */
module Market {
  import opened Wrappers
  import AuctionRules
  import AuctionSteps
  import AuctionInvariant
  import AuctionRuns
  import AuctionTheorems
  import ShopRules
  import ShopSteps
  import ShopAnswers
  import ShopInvariant
  import ShopRuns
  import ShopReachable
  import ShopTheorems

  datatype World = World(auctions: AuctionRuns.System, shop: ShopRuns.ShopSystem)

  datatype Action = OnAuctions(auction: AuctionRuns.Action) | OnShop(shop: ShopRuns.Action)

  const EMPTY: World := World(AuctionRuns.EMPTY, ShopRuns.EMPTY)

  predicate Sold(row: AuctionRules.Auction) {
    row.status == AuctionRules.SOLD && row.winnerUserId.Some? && row.soldPrice.Some?
  }

  /** What checkout can read of the auctions: those SOLD, with their winner and price. */
  function SoldLots(db: AuctionSteps.Db): map<ShopRules.AuctionId, ShopRules.WonLot> {
    map a | a in db.lots && Sold(db.lots[a].row) ::
      ShopRules.WonLot(db.lots[a].row.sellerId, db.lots[a].row.winnerUserId.value, db.lots[a].row.soldPrice.value)
  }

  ghost function Next(w: World, action: Action): World {
    match action
    case OnAuctions(a) =>
      var auctions := AuctionRuns.Next(w.auctions, a);
      World(auctions, ShopRuns.Next(w.shop, ShopRuns.SettleLots(SoldLots(auctions.db))))
    case OnShop(a) => if a.SettleLots? then w else w.(shop := ShopRuns.Next(w.shop, a))
  }

  ghost function Run(w: World, actions: seq<Action>): World {
    if actions == [] then w else Next(Run(w, actions[..|actions| - 1]), actions[|actions| - 1])
  }

  /** Both sides are reachable on their own, and the shop's view of the lots is the auctions' own. */
  ghost predicate Agree(w: World) {
    && AuctionTheorems.Reachable(w.auctions)
    && ShopReachable.Reachable(w.shop)
    && w.shop.shop.sold == SoldLots(w.auctions.db)
  }

  lemma {:induction false} AuctionsReach(s: AuctionRuns.System, action: AuctionRuns.Action)
    requires AuctionTheorems.Reachable(s)
    ensures AuctionTheorems.Reachable(AuctionRuns.Next(s, action))
  {
    hide AuctionRuns.Next;
    var actions :| s == AuctionRuns.Run(AuctionRuns.EMPTY, actions);
    var more := actions + [action];
    assert more[..|more| - 1] == actions;
    assert AuctionRuns.Run(AuctionRuns.EMPTY, more) == AuctionRuns.Next(s, action);
  }

  /** No auction step changes or withdraws a lot once it is sold. */
  lemma {:induction false} SoldLotsOnlyGrow(s: AuctionRuns.System, action: AuctionRuns.Action)
    requires AuctionTheorems.Reachable(s)
    ensures ShopRuns.Extends(SoldLots(s.db), SoldLots(AuctionRuns.Next(s, action).db))
  {
    hide AuctionTheorems.Reachable, AuctionRuns.Next, AuctionRuns.Inv;
    AuctionTheorems.ReachableIsGood(s);
    AuctionRuns.NextKeeps(s, action);
    var after := AuctionRuns.Next(s, action);
    forall a | a in SoldLots(s.db)
      ensures a in SoldLots(after.db) && SoldLots(after.db)[a] == SoldLots(s.db)[a]
    {
      assert AuctionInvariant.Evolves(s.db.lots[a], after.db.lots[a]);
    }
  }

  lemma {:induction false} RunAgrees(actions: seq<Action>)
    ensures Agree(Run(EMPTY, actions))
    decreases |actions|
  {
    hide AuctionTheorems.Reachable, ShopReachable.Reachable, AuctionRuns.Next, ShopRuns.Extends;
    if actions == [] {
      NothingYet();
    } else {
      var before := Run(EMPTY, actions[..|actions| - 1]);
      RunAgrees(actions[..|actions| - 1]);
      match actions[|actions| - 1] {
        case OnAuctions(a) =>
          AuctionsReach(before.auctions, a);
          SoldLotsOnlyGrow(before.auctions, a);
          ShopReachable.ReachableNext(before.shop,
              ShopRuns.SettleLots(SoldLots(AuctionRuns.Next(before.auctions, a).db)));
        case OnShop(a) =>
          hide ShopRuns.Next;
          ShopReachable.ReachableNext(before.shop, a);
          ShopReachable.TablesLeftAlone(before.shop, a);
      }
    }
  }

  lemma {:induction false} NothingYet()
    ensures Agree(EMPTY)
  {
    assert AuctionRuns.Run(AuctionRuns.EMPTY, []) == AuctionRuns.EMPTY;
    assert ShopRuns.Run(ShopRuns.EMPTY, []) == ShopRuns.EMPTY;
  }

  /**
   * From the first bid to the order: a lot that was paid for was sold, is in one
   * order item and no other, was bought by whoever placed its last and leading
   * bid, for that bid's amount, from its seller, who is somebody else, and for no
   * less than the reserve.
   */
  lemma {:induction false} PaidLotWasWon(actions: seq<Action>, a: ShopRules.AuctionId, k: nat, i: nat)
    requires ShopInvariant.LotAt(Run(EMPTY, actions).shop.shop.orders, k, i, a)
    ensures
      var w := Run(EMPTY, actions);
      var order := w.shop.shop.orders[k];
      && a in w.auctions.db.lots
      && var lot := w.auctions.db.lots[a];
      && lot.row.status == AuctionRules.SOLD && lot.bids != []
      && AuctionRules.Leader(lot.bids) == Some(|lot.bids| - 1)
      && order.buyerId == lot.bids[|lot.bids| - 1].bidderId
      && order.items[i].unitPrice == lot.bids[|lot.bids| - 1].amount
      && order.items[i].quantity == 1
      && order.sellerId == lot.row.sellerId != order.buyerId
      && (lot.row.terms.reservePrice.Some? ==> order.items[i].unitPrice >= lot.row.terms.reservePrice.value)
    ensures forall l: nat, j: nat | ShopInvariant.LotAt(Run(EMPTY, actions).shop.shop.orders, l, j, a) ::
        l == k && j == i
  {
    hide AuctionTheorems.Reachable, ShopReachable.Reachable, Run, AuctionRules.Leader;
    RunAgrees(actions);
    var w := Run(EMPTY, actions);
    ShopTheorems.LotIsPaidAtMostOnce(w.shop, a, k, i);
    AuctionTheorems.SoldPriceIsFair(w.auctions, a);
    AuctionTheorems.LedgerHolds(w.auctions, a);
    AuctionTheorems.WinnerIsLastBidder(w.auctions, a);
  }

  /** The shop sees exactly the lots that are SOLD, each to its last bidder, at that bid, from its seller. */
  lemma {:induction false} ShopSeesWhatSold(actions: seq<Action>, a: ShopRules.AuctionId)
    ensures
      var w := Run(EMPTY, actions);
      && (a in w.shop.shop.sold <==> a in w.auctions.db.lots && w.auctions.db.lots[a].row.status == AuctionRules.SOLD)
      && (a in w.shop.shop.sold ==>
            var lot := w.auctions.db.lots[a];
            && lot.bids != []
            && w.shop.shop.sold[a] ==
                 ShopRules.WonLot(lot.row.sellerId, lot.bids[|lot.bids| - 1].bidderId, lot.bids[|lot.bids| - 1].amount))
  {
    hide AuctionTheorems.Reachable, ShopReachable.Reachable, Run;
    RunAgrees(actions);
    var w := Run(EMPTY, actions);
    if a in w.auctions.db.lots {
      AuctionTheorems.SoldPriceIsFair(w.auctions, a);
      if w.auctions.db.lots[a].row.status == AuctionRules.SOLD { AuctionTheorems.WinnerIsLastBidder(w.auctions, a); }
    }
  }

  /** Until an order has it, a sold lot can be paid for by its last bidder, at that bid, and by nobody else. */
  lemma {:induction false} WonLotCanBePaid(actions: seq<Action>, a: ShopRules.AuctionId, buyerId: ShopRules.UserId)
    requires a in Run(EMPTY, actions).auctions.db.lots
    requires Run(EMPTY, actions).auctions.db.lots[a].row.status == AuctionRules.SOLD
    requires forall k: nat, i: nat :: !ShopInvariant.LotAt(Run(EMPTY, actions).shop.shop.orders, k, i, a)
    ensures
      var w := Run(EMPTY, actions);
      var lot := w.auctions.db.lots[a];
      var priced := ShopSteps.PriceAuction(w.shop.shop, buyerId, a);
      && lot.bids != []
      && (priced.Some? <==> buyerId == lot.bids[|lot.bids| - 1].bidderId)
      && (priced.Some? ==> |priced.value| == 1 && priced.value[0].subtotal == lot.bids[|lot.bids| - 1].amount)
  {
    hide AuctionTheorems.Reachable, ShopReachable.Reachable, Run, ShopSteps.PriceAuction;
    ShopSeesWhatSold(actions, a);
    var shop := Run(EMPTY, actions).shop.shop;
    ShopAnswers.LotIsPricedExactlyWhen(shop, buyerId, a);
    forall k, i | 0 <= k < |shop.orders| && 0 <= i < |shop.orders[k].items|
      ensures shop.orders[k].items[i].auctionId != Some(a)
    {
      assert !ShopInvariant.LotAt(shop.orders, k, i, a);
    }
  }
}
