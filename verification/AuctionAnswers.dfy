/**
 * What each request to an auction is answered with, and when: every condition
 * written out over the rows on record, every column of what is left behind.
 */
module AuctionAnswers {
  import opened Wrappers
  import opened AuctionRules
  import opened AuctionSteps
  import opened AuctionInvariant
  import opened AuctionRuns

  // ---- Bids ----

  /** What the next bid has to reach: the starting price, or an increment above the last bid on record. */
  lemma {:induction false} MinimumIs(lot: Lot)
    requires Ledger(lot.row, lot.bids)
    ensures lot.bids == [] ==> CalculateMinimumBid(lot.row) == lot.row.terms.startingPrice
    ensures lot.bids != [] ==>
        CalculateMinimumBid(lot.row) == lot.bids[|lot.bids| - 1].amount + lot.row.terms.minBidIncrement
  {
  }

  lemma {:induction false} RunningRow(lot: Lot)
    requires LotInv(lot) && lot.row.status == ACTIVE
    ensures lot.row.currentEndAt.Some? && lot.row.extensionCount == |lot.extensions|
    ensures lot.row.terms.minBidIncrement > 0
  {
    hide Ledger, LogAgrees, Outcome, Gallery, Told, Distinct, Blank;
  }

  /** What an attempt that found no bid under its request id is answered, exactly. */
  lemma {:induction false} JudgedExactlyWhen(db: Db, attempt: Attempt)
    requires attempt.auctionId in db.lots ==> LotInv(db.lots[attempt.auctionId])
    ensures Judge(db, attempt) == Answered(Refused(UnknownAuction)) <==> attempt.auctionId !in db.lots
    ensures attempt.auctionId in db.lots ==>
              var lot := db.lots[attempt.auctionId];
              var phase := Judge(db, attempt);
              var running := lot.row.status == ACTIVE && lot.row.currentEndAt.Some?
                             && attempt.now < lot.row.currentEndAt.value;
              && (phase == Answered(Refused(NotOpen)) <==> lot.row.status != ACTIVE)
              && (phase == Answered(Refused(HasEnded)) <==> lot.row.status == ACTIVE && !running)
              && (phase == Answered(Refused(OwnAuction)) <==> running && attempt.bidderId == lot.row.sellerId)
              && var least := if lot.bids == [] then lot.row.terms.startingPrice
                              else lot.bids[|lot.bids| - 1].amount + lot.row.terms.minBidIncrement;
              && (phase == Answered(Refused(BelowMinimum(least))) <==>
                    (running && attempt.bidderId != lot.row.sellerId && attempt.amount < least))
              && (forall other :: phase == Answered(Refused(BelowMinimum(other))) ==> other == least)
              && (phase.Judged? <==>
                    && running
                    && attempt.bidderId != lot.row.sellerId
                    && (lot.bids == [] ==> attempt.amount >= lot.row.terms.startingPrice)
                    && (lot.bids != [] ==>
                          attempt.amount >= lot.bids[|lot.bids| - 1].amount + lot.row.terms.minBidIncrement))
              && (phase.Judged? ==> phase.snapshot == lot.row)
              && (phase.Judged? || (phase.Answered? && phase.answer.Refused?))
  {
    if attempt.auctionId in db.lots {
      var lot := db.lots[attempt.auctionId];
      if lot.row.status == ACTIVE { RunningRow(lot); }
      assert Ledger(lot.row, lot.bids);
      MinimumIs(lot);
      hide LotInv, Ledger, CalculateMinimumBid, CalculateAntiSniping;
    }
  }

  /** A judged bid extends exactly when at most two minutes were left and fewer than five extensions were on record. */
  lemma {:induction false} JudgedExtends(db: Db, attempt: Attempt)
    requires attempt.auctionId in db.lots && LotInv(db.lots[attempt.auctionId]) && Judge(db, attempt).Judged?
    ensures
      var lot := db.lots[attempt.auctionId];
      && lot.row.currentEndAt.Some?
      && var end := lot.row.currentEndAt.value;
         Judge(db, attempt) == Judged(lot.row,
           if end - attempt.now <= 120_000 && |lot.extensions| < 5
           then Extension(end, end + 120_000, |lot.extensions| + 1) else NoExtension)
  {
    RunningRow(db.lots[attempt.auctionId]);
    hide LotInv, CalculateMinimumBid;
  }

  /** A request id on record: the same auction and amount get their bid again, anything else says what differs. */
  lemma {:induction false} ReplayedExactlyWhen(db: Db, attempt: Attempt, otherwise: Phase)
    requires DbInv(db) && attempt.requestId in db.requests
    ensures
      var ref := db.requests[attempt.requestId];
      && ref.auctionId in db.lots && ref.index < |db.lots[ref.auctionId].bids|
      && var bid := db.lots[ref.auctionId].bids[ref.index];
      && bid.requestId == attempt.requestId
      && LookUp(db, attempt, otherwise) == Answered(
           if ref.auctionId == attempt.auctionId && bid.amount == attempt.amount then Replayed(ref)
           else if ref.auctionId != attempt.auctionId then Refused(RequestUsedElsewhere)
           else Refused(RequestUsedForOtherAmount))
  {
    hide LotInv;
    assert BidAt(db, db.requests[attempt.requestId]).Some?;
  }

  // ---- Drafting ----

  /** A draft is made exactly in a category that is open; what it starts with, column by column. */
  lemma {:induction false} DraftedExactlyWhen(db: Db, id: AuctionId, sellerId: UserId, terms: Terms, imageCount: nat)
    requires id !in db.lots
    ensures
      var after := WithDraft(db, id, sellerId, terms, imageCount);
      && (after != db <==> terms.categoryId in db.categories && db.categories[terms.categoryId])
      && (after != db ==>
            && id in after.lots && after == db.(lots := db.lots[id := after.lots[id]])
            && var lot := after.lots[id];
            && lot.row.sellerId == sellerId && lot.row.terms == terms && lot.row.status == DRAFT
            && lot.row.currentPrice == 0 && lot.row.bidCount == 0 && lot.row.extensionCount == 0
            && lot.row.currentEndAt == terms.originalEndAt
            && lot.row.publishedAt.None? && lot.row.startedAt.None? && lot.row.endedAt.None?
            && lot.row.winnerUserId.None? && lot.row.winningBid.None? && lot.row.soldPrice.None?
            && lot.bids == [] && lot.extensions == [] && lot.notices == [] && lot.watchers == []
            && lot.events == [Event(EvCreated, Some(sellerId), None)]
            && |lot.images| == imageCount
            && forall i | 0 <= i < imageCount :: lot.images[i] == Image(i, i == 0))
  {
    if terms.categoryId in db.categories && db.categories[terms.categoryId] {
      assert id in WithDraft(db, id, sellerId, terms, imageCount).lots;
    }
  }

  /** The rule each code stands for, over the columns of the auction it is asked of. */
  lemma {:induction false} EachCodeMeans(terms: Terms, images: seq<Image>, categories: map<CategoryId, bool>,
      now: Millis)
    ensures
      var draft := GateView(terms, images, categories);
      && (Unmet(TITLE_REQUIRED, draft, now) <==> Blank(terms.title))
      && (Unmet(DESCRIPTION_REQUIRED, draft, now) <==> Blank(terms.description))
      && !Unmet(CONDITION_REQUIRED, draft, now)
      && (Unmet(CATEGORY_REQUIRED, draft, now) <==> terms.categoryId !in categories)
      && (Unmet(CATEGORY_INACTIVE, draft, now) <==> terms.categoryId in categories && !categories[terms.categoryId])
      && (Unmet(STARTING_PRICE_NOT_POSITIVE, draft, now) <==> terms.startingPrice <= 0)
      && (Unmet(MIN_BID_INCREMENT_NOT_POSITIVE, draft, now) <==> terms.minBidIncrement <= 0)
      && (Unmet(START_AT_REQUIRED, draft, now) <==> terms.scheduledStartAt.None?)
      && (Unmet(END_AT_REQUIRED, draft, now) <==> terms.originalEndAt.None?)
      && (Unmet(END_AT_NOT_AFTER_START_AT, draft, now) <==>
            terms.scheduledStartAt.Some? && terms.originalEndAt.Some?
            && terms.originalEndAt.value <= terms.scheduledStartAt.value)
      && (Unmet(END_AT_IN_THE_PAST, draft, now) <==> terms.originalEndAt.Some? && terms.originalEndAt.value <= now)
      && (Unmet(IMAGES_REQUIRED, draft, now) <==> images == [])
      && (Unmet(RESERVE_NOT_POSITIVE, draft, now) <==> terms.reservePrice.Some? && terms.reservePrice.value <= 0)
      && (Unmet(RESERVE_BELOW_STARTING_PRICE, draft, now) <==>
            terms.reservePrice.Some? && 0 < terms.reservePrice.value < terms.startingPrice)
  {
  }

  // ---- Publishing ----

  /**
   * A publish goes through exactly for the seller of a draft that meets every rule now, and opens at
   * once if its start has come.
   */
  lemma {:induction false} PublishedExactlyWhen(lot: Lot, sellerId: UserId, now: Millis,
      categories: map<CategoryId, bool>)
    ensures
      var r := PublishStep(lot, sellerId, now, categories);
      var terms := lot.row.terms;
      && (r == Err(AuctionNotFound) <==> lot.row.sellerId != sellerId || lot.row.status != DRAFT)
      && (r.Ok? <==>
            && lot.row.sellerId == sellerId && lot.row.status == DRAFT
            && GateHolds(terms, lot.images)
            && terms.categoryId in categories && categories[terms.categoryId]
            && terms.originalEndAt.value > now)
      && (r.Ok? ==>
            var opens := terms.scheduledStartAt.value <= now;
            && r.value == lot.(row := r.value.row, events := r.value.events)
            && r.value.row == lot.row.(status := if opens then ACTIVE else SCHEDULED, publishedAt := Some(now),
                                       startedAt := if opens then Some(now) else None,
                                       rowVersion := lot.row.rowVersion + 1)
            && r.value.events == lot.events + [Event(EvPublished, Some(sellerId), None)]
                                 + (if opens then [Event(EvStarted, Some(sellerId), None)] else []))
  {
    PublishableMeans(lot.row.terms, lot.images, categories, now);
    hide Publishable, GateHolds;
  }

  // ---- Editing ----

  /** What a column holds after an edit: what the edit names, or what it held. */
  predicate Edited<T(==)>(c: Change<T>, before: T, after: T) {
    match c
    case Keep => after == before
    case Set(value) => after == value
  }

  /** The columns an edit leaves, one by one; the drafted end is written in both end columns. */
  predicate EditedColumns(before: Auction, p: Patch, after: Auction) {
    && Edited(p.title, before.terms.title, after.terms.title)
    && Edited(p.description, before.terms.description, after.terms.description)
    && Edited(p.condition, before.terms.condition, after.terms.condition)
    && Edited(p.categoryId, before.terms.categoryId, after.terms.categoryId)
    && Edited(p.startingPrice, before.terms.startingPrice, after.terms.startingPrice)
    && Edited(p.minBidIncrement, before.terms.minBidIncrement, after.terms.minBidIncrement)
    && Edited(p.reservePrice, before.terms.reservePrice, after.terms.reservePrice)
    && Edited(p.scheduledStartAt, before.terms.scheduledStartAt, after.terms.scheduledStartAt)
    && Edited(p.scheduledEndAt, before.terms.originalEndAt, after.terms.originalEndAt)
    && Edited(p.scheduledEndAt, before.currentEndAt, after.currentEndAt)
    && after == before.(terms := after.terms, currentEndAt := after.currentEndAt, rowVersion := before.rowVersion + 1)
  }

  /**
   * An edit goes through exactly for the seller of an auction that is a draft or
   * waits to start, into a usable category, and, once it is public, only to
   * something its own gate would pass; and it changes what it names.
   */
  lemma {:induction false} EditedExactlyWhen(lot: Lot, sellerId: UserId, p: Patch, now: Millis,
      categories: map<CategoryId, bool>)
    requires LotInv(lot)
    ensures
      var r := EditStep(lot, sellerId, p, now, categories);
      var usable := p.categoryId.Set? ==> p.categoryId.value in categories && categories[p.categoryId.value];
      var open := lot.row.sellerId == sellerId && (lot.row.status == DRAFT || lot.row.status == SCHEDULED);
      && (r == Err(CategoryUnusable) <==> !usable)
      && (r == Err(AuctionNotFound) <==> usable && lot.row.sellerId != sellerId)
      && (r == Err(NotSellerChangeable) <==>
            usable && lot.row.sellerId == sellerId && lot.row.status != DRAFT && lot.row.status != SCHEDULED)
      && r != Err(HasBids)
      && (lot.row.status == DRAFT ==> (r.Ok? <==> usable && open))
      && (r.Ok? ==>
            && usable && open
            && EditedColumns(lot.row, p, r.value.row)
            && r.value == lot.(row := r.value.row, images := r.value.images)
            && (p.images.Keep? ==> r.value.images == lot.images)
            && (p.images.Set? ==>
                  && |r.value.images| == p.images.value
                  && forall i | 0 <= i < |r.value.images| :: r.value.images[i] == Image(i, i == 0))
            && (lot.row.status == SCHEDULED ==>
                  && GateHolds(r.value.row.terms, r.value.images)
                  && r.value.row.terms.categoryId in categories && categories[r.value.row.terms.categoryId]
                  && r.value.row.terms.originalEndAt.value > now))
  {
    assert lot.row.status == DRAFT || lot.row.status == SCHEDULED ==> lot.row.bidCount == 0 by {
      hide Deadline, LogAgrees, Gate, Gallery, Told, Distinct;
    }
    hide LotInv;
    var images := if p.images.Set? then FreshImages(p.images.value) else lot.images;
    PublishableMeans(PatchTerms(lot.row.terms, p), images, categories, now);
    hide Publishable, GateHolds;
  }

  /** A public auction is not edited exactly when the edit would leave it failing its gate. */
  lemma {:induction false} EditOfPublicExactlyWhen(lot: Lot, sellerId: UserId, p: Patch, now: Millis,
      categories: map<CategoryId, bool>, after: Auction, images: seq<Image>)
    requires LotInv(lot) && lot.row.status == SCHEDULED && lot.row.sellerId == sellerId
    requires p.categoryId.Set? ==> p.categoryId.value in categories && categories[p.categoryId.value]
    requires EditedColumns(lot.row, p, after)
    requires images == if p.images.Set? then FreshImages(p.images.value) else lot.images
    ensures
      var r := EditStep(lot, sellerId, p, now, categories);
      && (r.Ok? <==>
            && GateHolds(after.terms, images)
            && after.terms.categoryId in categories && categories[after.terms.categoryId]
            && after.terms.originalEndAt.value > now)
      && (!r.Ok? ==> r == Err(EditLeavesIncomplete))
  {
    assert lot.row.bidCount == 0 by {
      hide Deadline, LogAgrees, Gate, Gallery, Told, Distinct;
    }
    hide LotInv;
    assert after.terms == PatchTerms(lot.row.terms, p);
    PublishableMeans(after.terms, images, categories, now);
    hide Publishable, GateHolds;
  }

  // ---- Cancelling ----

  /** What any cancellation leaves: the row closed, one event, and the notices told below. */
  ghost predicate LeftCancelled(before: Lot, actor: UserId, now: Millis, after: Lot) {
    && after == before.(row := after.row, events := after.events, notices := after.notices)
    && after.row == before.row.(status := CANCELLED, endedAt := Some(now), rowVersion := before.row.rowVersion + 1)
    && after.events == before.events + [Event(EvCancelled, Some(actor), None)]
    && before.notices <= after.notices
  }

  /** A seller cancels exactly their own draft or waiting auction. */
  lemma {:induction false} CancelledExactlyWhen(lot: Lot, sellerId: UserId, now: Millis)
    requires LotInv(lot)
    ensures
      var r := CancelOwnStep(lot, sellerId, now);
      && (r.Ok? <==> lot.row.sellerId == sellerId && (lot.row.status == DRAFT || lot.row.status == SCHEDULED))
      && (r == Err(AuctionNotFound) <==> lot.row.sellerId != sellerId)
      && r != Err(HasBids)
      && (r.Ok? ==> LeftCancelled(lot, sellerId, now, r.value))
  {
    assert lot.row.status == DRAFT || lot.row.status == SCHEDULED ==> lot.row.bidCount == 0 by {
      hide Deadline, LogAgrees, Gate, Gallery, Told, Distinct;
    }
    hide LotInv, Audience, NoticesTo;
  }

  /** An admin cancels exactly what has not ended or been cancelled. */
  lemma {:induction false} AdminCancelsExactlyWhen(lot: Lot, adminId: UserId, now: Millis)
    ensures
      var r := CancelByAdminStep(lot, adminId, now);
      && (r.Ok? <==> lot.row.status == DRAFT || lot.row.status == SCHEDULED || lot.row.status == ACTIVE)
      && (r.Ok? ==> LeftCancelled(lot, adminId, now, r.value))
  {
    hide Audience, AddAll, NoticesTo;
  }

  // ---- Starting and settling ----

  /** The timer starts exactly what waits and whose start has come. */
  lemma {:induction false} StartedExactlyWhen(lot: Lot, now: Millis)
    ensures
      var r := StartStep(lot, now);
      && (r.Ok? <==> lot.row.status == SCHEDULED && lot.row.terms.scheduledStartAt.Some?
                     && lot.row.terms.scheduledStartAt.value <= now)
      && (r.Ok? ==>
            r.value == lot.(row := lot.row.(status := ACTIVE, startedAt := Some(now),
                rowVersion := lot.row.rowVersion + 1),
                            events := lot.events + [Event(EvStarted, None, None)]))
  {
  }

  /** The last bid sells: there is one, and it reaches the reserve if there is one. */
  predicate LastBidSells(lot: Lot) {
    lot.bids != []
    && (lot.row.terms.reservePrice.None? || lot.bids[|lot.bids| - 1].amount >= lot.row.terms.reservePrice.value)
  }

  /**
   * Settling goes through exactly from ACTIVE at or after the end, and sells exactly to a last bid
   * that reaches the reserve.
   */
  lemma {:induction false} SettledExactlyWhen(lot: Lot, now: Millis)
    requires LotInv(lot)
    ensures
      var r := SettleStep(lot, now);
      && (r.Ok? <==> lot.row.status == ACTIVE && lot.row.currentEndAt.Some? && lot.row.currentEndAt.value <= now)
      && (r.Ok? ==>
            var last := |lot.bids| - 1;
            && SameOffer(lot, r.value)
            && r.value.row.status == (if LastBidSells(lot) then SOLD else UNSOLD)
            && r.value.row.endedAt == Some(now)
            && r.value.row.winningBid == (if LastBidSells(lot) then Some(last) else None)
            && r.value.row.winnerUserId == (if LastBidSells(lot) then Some(lot.bids[last].bidderId) else None)
            && r.value.row.soldPrice == (if LastBidSells(lot) then Some(lot.bids[last].amount) else None)
            && r.value.events == lot.events + [Event(EvEnded, None, if lot.bids == [] then None else Some(last))])
  {
    assert Ledger(lot.row, lot.bids);
    hide LotInv, Leader, EndedRecipients, NoticesTo;
    LeaderIsLastBid(lot.row, lot.bids);
    if lot.row.status == ACTIVE && DueToSettle(lot.row, now) { SettleShape(lot, SettleStep(lot, now).value, now); }
  }

  /** What the public is shown of the reserve is that comparison, of the last bid, or of zero before the first. */
  lemma {:induction false} ShownReserveMet(lot: Lot)
    requires Ledger(lot.row, lot.bids)
    ensures
      var shown := CalculateReserveMet(lot.row.currentPrice, lot.row.terms.reservePrice);
      && (lot.bids != [] ==> (shown <==> LastBidSells(lot)))
      && (lot.bids == [] ==> (shown <==> lot.row.terms.reservePrice.None? || 0 >= lot.row.terms.reservePrice.value))
  {
  }

  // ---- Pictures and watchers ----

  /** A picture goes onto a draft of fewer than eight, after all others, and leads exactly if it is the first. */
  lemma {:induction false} PictureAddedExactlyWhen(lot: Lot, sellerId: UserId)
    requires Gallery(lot.images)
    ensures
      var r := AddImageStep(lot, sellerId);
      && (r == Err(AuctionNotFound) <==> lot.row.sellerId != sellerId || lot.row.status != DRAFT)
      && (r.Ok? <==> lot.row.sellerId == sellerId && lot.row.status == DRAFT && |lot.images| < 8)
      && (r.Ok? ==>
            && r.value == lot.(row := lot.row.(rowVersion := lot.row.rowVersion + 1), images := r.value.images)
            && |r.value.images| == |lot.images| + 1 && lot.images <= r.value.images
            && (r.value.images[|lot.images|].isPrimary <==> lot.images == [])
            && forall i | 0 <= i < |lot.images| :: lot.images[i].position < r.value.images[|lot.images|].position)
  {
  }

  /**
   * A picture leaves a draft exactly if it is there; the others keep their places, and the first leads
   * if the lead left.
   */
  lemma {:induction false} PictureRemovedExactlyWhen(lot: Lot, sellerId: UserId, position: nat)
    requires Gallery(lot.images)
    ensures
      var r := RemoveImageStep(lot, sellerId, position);
      && (r.Ok? <==>
            && lot.row.sellerId == sellerId && lot.row.status == DRAFT
            && exists k | 0 <= k < |lot.images| :: lot.images[k].position == position)
      && (r.Ok? ==>
            && r.value == lot.(row := lot.row.(rowVersion := lot.row.rowVersion + 1), images := r.value.images)
            && Gallery(r.value.images)
            && forall k | 0 <= k < |lot.images| && lot.images[k].position == position ::
                 PictureGone(lot.images, k, r.value.images))
  {
    var k := FindImage(lot.images, position);
    hide WithoutImage, FindImage, PictureGone, Gallery;
    FoundThere(lot.images, position);
    if k.Some? {
      WithoutImageKeepsGallery(lot.images, k.value);
      if lot.images[k.value].isPrimary { OnlyLead(lot.images, k.value); }
      OneGone(lot.images, k.value);
      OnePosition(lot.images, position);
    }
  }

  lemma {:induction false} OneGone(images: seq<Image>, k: nat)
    requires k < |images|
    requires images[k].isPrimary ==> forall i | 0 <= i < |images| && i != k :: !images[i].isPrimary
    ensures PictureGone(images, k, WithoutImage(images, k))
  {
    var rest := images[..k] + images[k + 1..];
    assert forall i | 0 <= i < |rest| :: rest[i] == images[if i < k then i else i + 1];
  }

  lemma {:induction false} OnlyLead(images: seq<Image>, k: nat)
    requires Gallery(images) && k < |images| && images[k].isPrimary
    ensures forall i | 0 <= i < |images| && i != k :: !images[i].isPrimary
  {
  }

  lemma {:induction false} FoundThere(images: seq<Image>, position: nat)
    ensures FindImage(images, position).Some? <==> exists k | 0 <= k < |images| :: images[k].position == position
  {
    var k := FindImage(images, position);
    if k.Some? { assert images[k.value].position == position; }
    hide FindImage;
  }

  ghost predicate PictureGone(before: seq<Image>, k: nat, after: seq<Image>)
    requires k < |before|
  {
    && |after| == |before| - 1
    && (forall i | 0 <= i < k :: after[i].position == before[i].position)
    && (forall i | k <= i < |after| :: after[i].position == before[i + 1].position)
    && (forall i | 0 <= i < |after| ::
          after[i].isPrimary <==> if before[k].isPrimary then i == 0 else before[if i < k then i else i + 1].isPrimary)
  }

  lemma {:induction false} OnePosition(images: seq<Image>, position: nat)
    requires Gallery(images)
    ensures forall i, j | 0 <= i < |images| && 0 <= j < |images|
              && images[i].position == position && images[j].position == position :: i == j
  {
    forall i, j | 0 <= i < j < |images|
      ensures images[i].position != images[j].position
    {
    }
  }

  /** Anybody may watch what is public, once; and stop. */
  lemma {:induction false} WatchedExactlyWhen(lot: Lot, userId: UserId)
    ensures
      var r := WatchStep(lot, userId);
      && (r.Ok? <==> lot.row.status == SCHEDULED || lot.row.status == ACTIVE || lot.row.status == SOLD
                     || lot.row.status == UNSOLD)
      && (r.Ok? ==>
            && r.value == lot.(watchers := r.value.watchers)
            && forall u :: u in r.value.watchers <==> u in lot.watchers || u == userId)
    ensures forall u :: u in Without(lot.watchers, userId) <==> u in lot.watchers && u != userId
  {
    WithoutMembers(lot.watchers, userId);
  }
}
