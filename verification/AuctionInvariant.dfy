/** What every transaction keeps of one auction and the rows that point at it. */
module AuctionInvariant {
  import opened Wrappers
  import opened AuctionRules
  import opened AuctionSteps

  // ---- The bid ledger ----

  ghost predicate Ledger(row: Auction, bids: seq<Bid>) {
    && |bids| == row.bidCount
    && row.currentPrice == (if bids == [] then 0 else bids[|bids| - 1].amount)
    && (bids != [] ==> bids[0].amount >= row.terms.startingPrice && row.terms.minBidIncrement > 0)
    && (forall i | 0 <= i < |bids| :: bids[i].sequenceNo == i + 1 && bids[i].bidderId != row.sellerId)
    && (forall i, j | 0 <= i < j < |bids| :: bids[j].amount >= bids[i].amount + row.terms.minBidIncrement)
  }

  /** The order that names the leader and the order bids were accepted in agree on who is first. */
  lemma {:induction false} LeaderIsLastBid(row: Auction, bids: seq<Bid>)
    requires Ledger(row, bids)
    ensures Leader(bids) == if bids == [] then None else Some(|bids| - 1)
  {
    if bids != [] {
      assert !Beats(bids[|bids| - 1], bids[Leader(bids).value]);
    }
  }

  // ---- The deadline and its extensions ----

  const TEN_MINUTES: Millis := 10 * 60 * 1000

  ghost predicate Deadline(row: Auction, bids: seq<Bid>, extensions: seq<ExtensionRow>) {
    && row.extensionCount == |extensions| <= MAX_EXTENSIONS
    && (row.terms.originalEndAt.None? ==> row.currentEndAt.None? && bids == [])
    && (row.terms.originalEndAt.Some? ==>
      var end := row.terms.originalEndAt.value;
      && row.currentEndAt == Some(end + 120_000 * |extensions|)
      && (forall i | 0 <= i < |bids| :: bids[i].placedAt < end + TEN_MINUTES)
      && (forall i | 0 <= i < |extensions| :: ExtensionOk(end, i, extensions[i], bids)))
    && (forall i, j | 0 <= i < j < |extensions| :: extensions[i].triggeredBy < extensions[j].triggeredBy)
    && (row.terms.originalEndAt.None? ==> extensions == [])
  }

  /** The i-th extension moved the i-th deadline by two minutes, for a bid placed inside its last two. */
  ghost predicate ExtensionOk(originalEndAt: Millis, i: nat, e: ExtensionRow, bids: seq<Bid>) {
    && e.extensionNumber == i + 1
    && e.previousEndAt == originalEndAt + 120_000 * i
    && e.newEndAt == e.previousEndAt + 120_000
    && e.triggeredBy < |bids|
    && e.previousEndAt - 120_000 <= bids[e.triggeredBy].placedAt < e.previousEndAt
  }

  // ---- The event log ----

  datatype Stage = NotYet | Drafting | Waiting | Running | Finished | Withdrawn

  /** What reading an event log tells: how far the auction got, and how many bids and extensions it took. */
  datatype History = History(stage: Stage, bids: nat, extensions: nat)

  /** None when the event could not have happened next. */
  function NextHistory(h: History, e: Event): Option<History> {
    match e.kind
    case EvCreated => if h.stage == NotYet then Some(h.(stage := Drafting)) else None
    case EvPublished => if h.stage == Drafting then Some(h.(stage := Waiting)) else None
    case EvStarted => if h.stage == Waiting then Some(h.(stage := Running)) else None
    case EvBidPlaced => if h.stage == Running && e.bid == Some(h.bids) then Some(h.(bids := h.bids + 1)) else None
    case EvExtended =>
      if h.stage == Running && h.bids > 0 && e.bid == Some(h.bids - 1) then Some(h.(extensions := h.extensions + 1))
          else None
    case EvEnded =>
      if h.stage == Running && e.bid == (if h.bids == 0 then None else Some(h.bids - 1))
          then Some(h.(stage := Finished)) else None
    case EvCancelled =>
      if h.stage == Drafting || h.stage == Waiting || h.stage == Running then Some(h.(stage := Withdrawn)) else None
  }

  function ReadLog(events: seq<Event>): Option<History> {
    if events == [] then Some(History(NotYet, 0, 0))
    else
      var h := ReadLog(events[..|events| - 1]);
      if h.None? then None else NextHistory(h.value, events[|events| - 1])
  }

  lemma {:induction false} ReadLogAppend(events: seq<Event>, e: Event)
    ensures ReadLog(events + [e]) == if ReadLog(events).None? then None else NextHistory(ReadLog(events).value, e)
  {
    assert (events + [e])[..|events|] == events;
  }

  function StageOf(status: Status): Stage {
    match status
    case DRAFT => Drafting
    case SCHEDULED => Waiting
    case ACTIVE => Running
    case SOLD => Finished
    case UNSOLD => Finished
    case CANCELLED => Withdrawn
  }

  ghost predicate LogAgrees(row: Auction, events: seq<Event>) {
    ReadLog(events) == Some(History(StageOf(row.status), row.bidCount, row.extensionCount))
  }

  // ---- The outcome ----

  predicate Terminal(status: Status) { status == SOLD || status == UNSOLD || status == CANCELLED }

  ghost predicate Outcome(row: Auction, bids: seq<Bid>) {
    && (SellerChangeable(row.status) ==> bids == [] && row.extensionCount == 0)
    && (row.winnerUserId.Some? <==> row.status == SOLD)
    && (row.winningBid.Some? <==> row.status == SOLD)
    && (row.soldPrice.Some? <==> row.status == SOLD)
    && (row.endedAt.Some? <==> Terminal(row.status))
    && (row.status == SOLD || row.status == UNSOLD ==>
      && row.currentEndAt.Some? && row.endedAt.value >= row.currentEndAt.value
      && (row.status == SOLD <==>
            bids != [] && (row.terms.reservePrice.None?
                           || bids[|bids| - 1].amount >= row.terms.reservePrice.value)))
    && (row.status == SOLD ==>
      var last := |bids| - 1;
      row.winningBid == Some(last) && row.winnerUserId == Some(bids[last].bidderId)
          && row.soldPrice == Some(bids[last].amount))
  }

  ghost predicate Gate(row: Auction, images: seq<Image>, bids: seq<Bid>) {
    (row.status != DRAFT && row.status != CANCELLED) || bids != [] ==> GateHolds(row.terms, images)
  }

  // ---- The gallery ----

  ghost predicate Gallery(images: seq<Image>) {
    && (forall i, j | 0 <= i < j < |images| :: images[i].position < images[j].position)
    && (forall i, j | 0 <= i < j < |images| :: !(images[i].isPrimary && images[j].isPrimary))
    && (images != [] ==> exists i | 0 <= i < |images| :: images[i].isPrimary)
  }

  // ---- The notices ----

  /** The notices of one kind, in order. */
  function OfKind(notices: seq<Notice>, kind: NoticeType): seq<Notice> {
    if notices == [] then []
    else
      var last := |notices| - 1;
      OfKind(notices[..last], kind) + if notices[last].kind == kind then [notices[last]] else []
  }

  lemma {:induction false} OfKindConcat(a: seq<Notice>, b: seq<Notice>, kind: NoticeType)
    ensures OfKind(a + b, kind) == OfKind(a, kind) + OfKind(b, kind)
    decreases |b|
  {
    if b == [] {
      assert a + b == a;
    } else {
      var last := |b| - 1;
      OfKindConcat(a, b[..last], kind);
      assert (a + b)[..|a + b| - 1] == a + b[..last];
    }
  }

  lemma {:induction false} OfKindAll(notices: seq<Notice>, kind: NoticeType, other: NoticeType)
    requires forall i | 0 <= i < |notices| :: notices[i].kind == kind
    ensures OfKind(notices, other) == if other == kind then notices else []
    decreases |notices|
  {
    if notices != [] {
      OfKindAll(notices[..|notices| - 1], kind, other);
      assert notices == notices[..|notices| - 1] + [notices[|notices| - 1]];
    }
  }

  /** One row for each bid that displaced somebody else's. */
  function OutbidRows(bids: seq<Bid>): seq<Notice> {
    if |bids| < 2 then []
    else
      var last := |bids| - 1;
      OutbidRows(bids[..last])
      + if bids[last - 1].bidderId == bids[last].bidderId then []
        else [Notice(OUTBID, bids[last - 1].bidderId, Some(last), Some(bids[last].amount))]
  }

  ghost predicate Told(row: Auction, bids: seq<Bid>, notices: seq<Notice>) {
    && OfKind(notices, OUTBID) == OutbidRows(bids)
    && OfKind(notices, AUCTION_WON) ==
       (if row.status == SOLD && row.winnerUserId.Some?
           then [Notice(AUCTION_WON, row.winnerUserId.value, row.winningBid, row.soldPrice)] else [])
    && (row.status != SOLD && row.status != UNSOLD ==> OfKind(notices, AUCTION_ENDED) == [])
    && (row.status != CANCELLED ==> OfKind(notices, AUCTION_CANCELLED) == [])
  }

  // ---- All of it ----

  ghost predicate LotInv(lot: Lot) {
    && Ledger(lot.row, lot.bids)
    && Deadline(lot.row, lot.bids, lot.extensions)
    && LogAgrees(lot.row, lot.events)
    && Outcome(lot.row, lot.bids)
    && Gate(lot.row, lot.images, lot.bids)
    && Gallery(lot.images)
    && Told(lot.row, lot.bids, lot.notices)
    && Distinct(lot.watchers)
  }

  /** How a lot may change: the version moves with the row, the logs only grow, a terminal row never changes. */
  ghost predicate Evolves(before: Lot, after: Lot) {
    && after.row.sellerId == before.row.sellerId
    && before.row.rowVersion <= after.row.rowVersion
    && (before.row.rowVersion == after.row.rowVersion ==> before.row == after.row)
    && before.bids <= after.bids
    && before.extensions <= after.extensions
    && before.events <= after.events
    && before.notices <= after.notices
    && (Terminal(before.row.status) ==>
        after.row == before.row && after.bids == before.bids && after.notices == before.notices)
  }

  lemma {:induction false} EvolvesTransitive(a: Lot, b: Lot, c: Lot)
    requires Evolves(a, b) && Evolves(b, c)
    ensures Evolves(a, c)
  {
  }

  // ---- Each transaction keeps it ----

  lemma {:induction false} FreshGallery(n: nat)
    ensures Gallery(FreshImages(n))
  {
    if n > 0 {
      assert FreshImages(n)[0].isPrimary;
    }
  }

  lemma {:induction false} DraftedKeeps(sellerId: UserId, terms: Terms, imageCount: nat)
    ensures LotInv(Drafted(sellerId, terms, imageCount))
  {
    var lot := Drafted(sellerId, terms, imageCount);
    ReadLogAppend([], lot.events[0]);
    assert [] + [lot.events[0]] == lot.events;
    FreshGallery(imageCount);
  }

  /** Ledger and deadline do not look at the columns a change of status writes. */
  lemma {:induction false} SameBidding(row: Auction, after: Auction, bids: seq<Bid>, extensions: seq<ExtensionRow>)
    requires Ledger(row, bids) && Deadline(row, bids, extensions)
    requires after.sellerId == row.sellerId && after.terms == row.terms
    requires after.currentPrice == row.currentPrice && after.bidCount == row.bidCount
    requires after.currentEndAt == row.currentEndAt && after.extensionCount == row.extensionCount
    ensures Ledger(after, bids) && Deadline(after, bids, extensions)
  {
  }

  lemma {:induction false} PublishLog(lot: Lot, after: Lot, sellerId: UserId, now: Millis,
      categories: map<CategoryId, bool>)
    requires LogAgrees(lot.row, lot.events) && PublishStep(lot, sellerId, now, categories) == Ok(after)
    ensures LogAgrees(after.row, after.events) && lot.events <= after.events
  {
    var published := Event(EvPublished, Some(sellerId), None);
    var started := Event(EvStarted, Some(sellerId), None);
    ReadLogAppend(lot.events, published);
    ReadLogAppend(lot.events + [published], started);
    assert after.row.status == ACTIVE ==> after.events == lot.events + [published] + [started];
    assert after.row.status != ACTIVE ==> after.events == lot.events + [published];
  }

  lemma {:induction false} PublishRest(lot: Lot, after: Lot, sellerId: UserId, now: Millis,
      categories: map<CategoryId, bool>)
    requires PublishStep(lot, sellerId, now, categories) == Ok(after)
    requires Outcome(lot.row, lot.bids) && Told(lot.row, lot.bids, lot.notices)
    ensures Outcome(after.row, after.bids) && Gate(after.row, after.images, after.bids)
        && Told(after.row, after.bids, after.notices)
  {
    PublishableMeans(lot.row.terms, lot.images, categories, now);
  }

  lemma {:induction false} PublishKeeps(lot: Lot, after: Lot, sellerId: UserId, now: Millis,
      categories: map<CategoryId, bool>)
    requires LotInv(lot) && PublishStep(lot, sellerId, now, categories) == Ok(after)
    ensures LotInv(after) && Evolves(lot, after)
  {
    hide Ledger, Deadline, LogAgrees, Outcome, Gate, Gallery, Told, Distinct;
    SameBidding(lot.row, after.row, lot.bids, lot.extensions);
    PublishLog(lot, after, sellerId, now, categories);
    PublishRest(lot, after, sellerId, now, categories);
  }

  lemma {:induction false} EditKeepsBidding(lot: Lot, after: Lot, sellerId: UserId, p: Patch, now: Millis,
      categories: map<CategoryId, bool>)
    requires EditStep(lot, sellerId, p, now, categories) == Ok(after)
    requires Ledger(lot.row, lot.bids) && Deadline(lot.row, lot.bids, lot.extensions) && Outcome(lot.row, lot.bids)
    ensures Ledger(after.row, after.bids) && Deadline(after.row, after.bids, after.extensions)
        && Outcome(after.row, after.bids)
  {
  }

  lemma {:induction false} EditRest(lot: Lot, after: Lot, sellerId: UserId, p: Patch, now: Millis,
      categories: map<CategoryId, bool>)
    requires EditStep(lot, sellerId, p, now, categories) == Ok(after)
    requires Outcome(lot.row, lot.bids) && Gallery(lot.images) && Told(lot.row, lot.bids, lot.notices)
    ensures Gate(after.row, after.images, after.bids) && Gallery(after.images)
        && Told(after.row, after.bids, after.notices)
  {
    PublishableMeans(after.row.terms, after.images, categories, now);
    if p.images.Set? {
      FreshGallery(p.images.value);
    }
  }

  lemma {:induction false} EditKeeps(lot: Lot, after: Lot, sellerId: UserId, p: Patch, now: Millis,
      categories: map<CategoryId, bool>)
    requires LotInv(lot) && EditStep(lot, sellerId, p, now, categories) == Ok(after)
    ensures LotInv(after) && Evolves(lot, after)
  {
    hide Ledger, Deadline, Outcome, Gate, Gallery, Told, Distinct;
    EditKeepsBidding(lot, after, sellerId, p, now, categories);
    EditRest(lot, after, sellerId, p, now, categories);
  }

  lemma {:induction false} CancelledTold(lot: Lot, actor: UserId, now: Millis, recipients: seq<UserId>)
    requires AdminCancellable(lot.row.status) && Told(lot.row, lot.bids, lot.notices)
    ensures Told(Cancelled(lot, actor, now, recipients).row, lot.bids, Cancelled(lot, actor, now, recipients).notices)
  {
    var rows := NoticesTo(recipients, AUCTION_CANCELLED, None);
    forall kind: NoticeType
      ensures OfKind(lot.notices + rows, kind) == OfKind(lot.notices, kind) + if kind == AUCTION_CANCELLED then rows
          else []
    {
      OfKindConcat(lot.notices, rows, kind);
      OfKindAll(rows, AUCTION_CANCELLED, kind);
    }
  }

  lemma {:induction false} CancelledRest(lot: Lot, after: Lot, actor: UserId, now: Millis, recipients: seq<UserId>)
    requires AdminCancellable(lot.row.status) && after == Cancelled(lot, actor, now, recipients)
    requires Outcome(lot.row, lot.bids) && LogAgrees(lot.row, lot.events) && Gate(lot.row, lot.images, lot.bids)
    ensures Outcome(after.row, after.bids) && LogAgrees(after.row, after.events)
        && Gate(after.row, after.images, after.bids)
  {
    ReadLogAppend(lot.events, Event(EvCancelled, Some(actor), None));
  }

  lemma {:induction false} CancelledKeeps(lot: Lot, after: Lot, actor: UserId, now: Millis, recipients: seq<UserId>)
    requires LotInv(lot) && AdminCancellable(lot.row.status) && after == Cancelled(lot, actor, now, recipients)
    ensures LotInv(after) && Evolves(lot, after)
  {
    hide Ledger, Deadline, LogAgrees, Outcome, Gate, Gallery, Told, Distinct;
    SameBidding(lot.row, after.row, lot.bids, lot.extensions);
    CancelledRest(lot, after, actor, now, recipients);
    CancelledTold(lot, actor, now, recipients);
  }

  lemma {:induction false} NewLastImage(images: seq<Image>, image: Image)
    requires Gallery(images)
    requires image.isPrimary <==> images == []
    requires images != [] ==> image.position > images[|images| - 1].position
    ensures Gallery(images + [image])
  {
    if images == [] {
      assert (images + [image])[0].isPrimary;
    } else {
      var k :| 0 <= k < |images| && images[k].isPrimary;
      assert (images + [image])[k].isPrimary;
    }
  }

  lemma {:induction false} WithoutAt(images: seq<Image>, k: nat, i: nat)
    requires k < |images| && i < |images| - 1
    ensures |WithoutImage(images, k)| == |images| - 1
    ensures
      var was := images[if i < k then i else i + 1];
      WithoutImage(images, k)[i] == if i == 0 && images[k].isPrimary then was.(isPrimary := true) else was
  {
  }

  /** Taking a picture out leaves exactly one to lead with, whichever it was. */
  lemma {:induction false} WithoutImageKeepsGallery(images: seq<Image>, k: nat)
    requires Gallery(images)
    requires k < |images|
    ensures Gallery(WithoutImage(images, k))
  {
    var after := WithoutImage(images, k);
    forall i | 0 <= i < |images| - 1
      ensures |after| == |images| - 1
      ensures
        var was := images[if i < k then i else i + 1];
        after[i] == if i == 0 && images[k].isPrimary then was.(isPrimary := true) else was
    {
      WithoutAt(images, k, i);
    }
    hide WithoutImage;
    if after != [] {
      if images[k].isPrimary {
        assert after[0].isPrimary;
      } else {
        var p :| 0 <= p < |images| && images[p].isPrimary;
        assert after[if p < k then p else p - 1].isPrimary;
      }
    }
  }

  lemma {:induction false} ImagesRest(lot: Lot, after: Lot)
    requires Outcome(lot.row, lot.bids) && LogAgrees(lot.row, lot.events) && Told(lot.row, lot.bids, lot.notices)
    requires lot.row.status == DRAFT
    requires after == lot.(row := lot.row.(rowVersion := lot.row.rowVersion + 1), images := after.images)
    ensures Outcome(after.row, after.bids) && LogAgrees(after.row, after.events)
        && Told(after.row, after.bids, after.notices)
    ensures Gate(after.row, after.images, after.bids)
  {
  }

  /** A change of pictures on a draft. */
  lemma {:induction false} ImagesKeep(lot: Lot, after: Lot)
    requires LotInv(lot) && lot.row.status == DRAFT
    requires after == lot.(row := lot.row.(rowVersion := lot.row.rowVersion + 1), images := after.images)
    requires Gallery(after.images)
    ensures LotInv(after) && Evolves(lot, after)
  {
    hide Ledger, Deadline, LogAgrees, Outcome, Gate, Gallery, Told, Distinct;
    SameBidding(lot.row, after.row, lot.bids, lot.extensions);
    ImagesRest(lot, after);
  }

  lemma {:induction false} AddImageShape(lot: Lot, after: Lot, sellerId: UserId)
    requires LotInv(lot) && AddImageStep(lot, sellerId) == Ok(after)
    ensures lot.row.status == DRAFT && Gallery(after.images)
    ensures after == lot.(row := lot.row.(rowVersion := lot.row.rowVersion + 1), images := after.images)
  {
    hide Ledger, Deadline, LogAgrees, Outcome, Gate, Told;
    NewLastImage(lot.images, after.images[|lot.images|]);
  }

  lemma {:induction false} RemoveImageShape(lot: Lot, after: Lot, sellerId: UserId, position: nat)
    requires LotInv(lot) && RemoveImageStep(lot, sellerId, position) == Ok(after)
    ensures lot.row.status == DRAFT && Gallery(after.images)
    ensures after == lot.(row := lot.row.(rowVersion := lot.row.rowVersion + 1), images := after.images)
  {
    hide Ledger, Deadline, LogAgrees, Outcome, Gate, Told;
    WithoutImageKeepsGallery(lot.images, FindImage(lot.images, position).value);
  }

  lemma {:induction false} AddImageKeeps(lot: Lot, after: Lot, sellerId: UserId)
    requires LotInv(lot) && AddImageStep(lot, sellerId) == Ok(after)
    ensures LotInv(after) && Evolves(lot, after)
  {
    hide LotInv, Evolves;
    AddImageShape(lot, after, sellerId);
    ImagesKeep(lot, after);
  }

  lemma {:induction false} RemoveImageKeeps(lot: Lot, after: Lot, sellerId: UserId, position: nat)
    requires LotInv(lot) && RemoveImageStep(lot, sellerId, position) == Ok(after)
    ensures LotInv(after) && Evolves(lot, after)
  {
    hide LotInv, Evolves;
    RemoveImageShape(lot, after, sellerId, position);
    ImagesKeep(lot, after);
  }

  lemma {:induction false} StartRest(lot: Lot, after: Lot, now: Millis)
    requires Outcome(lot.row, lot.bids) && LogAgrees(lot.row, lot.events) && Told(lot.row, lot.bids, lot.notices)
    requires Gate(lot.row, lot.images, lot.bids) && StartStep(lot, now) == Ok(after)
    ensures Outcome(after.row, after.bids) && LogAgrees(after.row, after.events)
        && Told(after.row, after.bids, after.notices)
    ensures Gate(after.row, after.images, after.bids)
  {
    ReadLogAppend(lot.events, Event(EvStarted, None, None));
  }

  lemma {:induction false} StartKeeps(lot: Lot, after: Lot, now: Millis)
    requires LotInv(lot) && StartStep(lot, now) == Ok(after)
    ensures LotInv(after) && Evolves(lot, after)
  {
    hide Ledger, Deadline, LogAgrees, Outcome, Gate, Gallery, Told, Distinct;
    SameBidding(lot.row, after.row, lot.bids, lot.extensions);
    StartRest(lot, after, now);
  }

  lemma {:induction false} WonThenEnded(notices: seq<Notice>, won: seq<Notice>, ended: seq<Notice>, kind: NoticeType)
    requires forall i | 0 <= i < |won| :: won[i].kind == AUCTION_WON
    requires forall i | 0 <= i < |ended| :: ended[i].kind == AUCTION_ENDED
    ensures OfKind(notices + won + ended, kind) ==
            OfKind(notices, kind) + (if kind == AUCTION_WON then won else if kind == AUCTION_ENDED then ended else [])
  {
    OfKindConcat(notices + won, ended, kind);
    OfKindConcat(notices, won, kind);
    OfKindAll(won, AUCTION_WON, kind);
    OfKindAll(ended, AUCTION_ENDED, kind);
  }

  lemma {:induction false} SettleTold(lot: Lot, after: Lot, now: Millis)
    requires lot.row.status == ACTIVE && Told(lot.row, lot.bids, lot.notices)
    requires after == SettledWith(lot, Leader(lot.bids), now)
    ensures Told(after.row, after.bids, after.notices)
    ensures OfKind(after.notices, AUCTION_ENDED)
        == NoticesTo(EndedRecipients(lot, after.row.winnerUserId), AUCTION_ENDED,
              if lot.bids == [] then None else Some(lot.bids[Leader(lot.bids).value].amount))
  {
    hide Leader, EndedRecipients, OfKind, OutbidRows;
    var top := Leader(lot.bids);
    var price := if top.Some? then Some(lot.bids[top.value].amount) else None;
    var won := if IsSold(lot, top) then [Notice(AUCTION_WON, lot.bids[top.value].bidderId, top, price)] else [];
    var ended := NoticesTo(EndedRecipients(lot, after.row.winnerUserId), AUCTION_ENDED, price);
    assert after.notices == lot.notices + won + ended;
    forall kind: NoticeType { WonThenEnded(lot.notices, won, ended, kind); }
  }

  lemma {:induction false} SettleOutcome(lot: Lot, after: Lot, now: Millis)
    requires DueToSettle(lot.row, now) && Ledger(lot.row, lot.bids) && Outcome(lot.row, lot.bids)
    requires LogAgrees(lot.row, lot.events)
    requires after == SettledWith(lot, Leader(lot.bids), now)
    ensures Outcome(after.row, after.bids) && LogAgrees(after.row, after.events)
  {
    hide Leader, EndedRecipients, NoticesTo;
    LeaderIsLastBid(lot.row, lot.bids);
    ReadLogAppend(lot.events, Event(EvEnded, None, Leader(lot.bids)));
  }

  /** The columns and tables settlement leaves alone. */
  lemma {:induction false} SettleShape(lot: Lot, after: Lot, now: Millis)
    requires SettleStep(lot, now) == Ok(after)
    ensures SameOffer(lot, after)
    ensures lot.events <= after.events && lot.notices <= after.notices
    ensures lot.row.status == ACTIVE
  {
    hide Leader, EndedRecipients;
  }

  ghost predicate SameOffer(lot: Lot, after: Lot) {
    && after.bids == lot.bids && after.extensions == lot.extensions
    && after.images == lot.images && after.watchers == lot.watchers
    && after.row.sellerId == lot.row.sellerId && after.row.terms == lot.row.terms
    && after.row.currentPrice == lot.row.currentPrice && after.row.bidCount == lot.row.bidCount
    && after.row.currentEndAt == lot.row.currentEndAt && after.row.extensionCount == lot.row.extensionCount
    && after.row.rowVersion == lot.row.rowVersion + 1
  }

  /** Puts the parts together for a change of status that leaves the offer alone. */
  lemma {:induction false} Assemble(lot: Lot, after: Lot)
    requires LotInv(lot) && SameOffer(lot, after)
    requires lot.events <= after.events && lot.notices <= after.notices
    requires !Terminal(lot.row.status) && PubliclyVisible(lot.row.status)
    requires Outcome(after.row, after.bids) && LogAgrees(after.row, after.events)
        && Told(after.row, after.bids, after.notices)
    ensures LotInv(after) && Evolves(lot, after)
  {
    hide Ledger, Deadline, LogAgrees, Outcome, Gallery, Told, Distinct;
    SameBidding(lot.row, after.row, lot.bids, lot.extensions);
  }

  lemma {:induction false} SettleKeeps(lot: Lot, after: Lot, now: Millis)
    requires LotInv(lot) && SettleStep(lot, now) == Ok(after)
    ensures LotInv(after) && Evolves(lot, after)
  {
    hide Ledger, Deadline, LogAgrees, Outcome, Gate, Gallery, Told, Distinct, Evolves, SettledWith, Leader;
    SettleShape(lot, after, now);
    SettleTold(lot, after, now);
    SettleOutcome(lot, after, now);
    Assemble(lot, after);
  }

  lemma {:induction false} WithoutMembers(users: seq<UserId>, userId: UserId)
    ensures forall u :: u in Without(users, userId) <==> u in users && u != userId
  {
    if users != [] {
      WithoutMembers(users[1..], userId);
    }
  }

  lemma {:induction false} WithoutKeepsDistinct(users: seq<UserId>, userId: UserId)
    requires Distinct(users)
    ensures Distinct(Without(users, userId))
  {
    if users != [] {
      assert users[0] !in users[1..];
      WithoutKeepsDistinct(users[1..], userId);
      WithoutMembers(users[1..], userId);
    }
  }

  lemma {:induction false} WatchersKeep(lot: Lot, after: Lot)
    requires LotInv(lot) && after == lot.(watchers := after.watchers) && Distinct(after.watchers)
    ensures LotInv(after) && Evolves(lot, after)
  {
    hide Ledger, Deadline, LogAgrees, Outcome, Gate, Gallery, Told, Distinct;
  }

  lemma {:induction false} WatchKeeps(lot: Lot, after: Lot, userId: UserId)
    requires LotInv(lot) && WatchStep(lot, userId) == Ok(after)
    ensures LotInv(after) && Evolves(lot, after)
  {
    hide Ledger, Deadline, LogAgrees, Outcome, Gate, Gallery, Told, Evolves;
    WatchersKeep(lot, after);
  }

  lemma {:induction false} UnwatchKeeps(lot: Lot, after: Lot, userId: UserId)
    requires LotInv(lot) && after == lot.(watchers := Without(lot.watchers, userId))
    ensures LotInv(after) && Evolves(lot, after)
  {
    hide Ledger, Deadline, LogAgrees, Outcome, Gate, Gallery, Told, Evolves;
    WithoutKeepsDistinct(lot.watchers, userId);
    WatchersKeep(lot, after);
  }

  /** Every transaction other than a bid keeps the invariant and only moves a lot forward. */
  lemma {:induction false} OpKeeps(lot: Lot, after: Lot, op: Op, categories: map<CategoryId, bool>)
    requires LotInv(lot) && OpStep(lot, op, categories) == Ok(after)
    ensures LotInv(after) && Evolves(lot, after) && after.bids == lot.bids
  {
    hide LotInv, Evolves;
    match op {
      case Publish(sellerId, now) => PublishKeeps(lot, after, sellerId, now, categories);
      case Edit(sellerId, patch, now) => EditKeeps(lot, after, sellerId, patch, now, categories);
      case CancelOwn(sellerId, now) =>
        CancelledKeeps(lot, after, sellerId, now, Audience(lot.bids, lot.watchers, {sellerId}));
      case CancelByAdmin(adminId, now) =>
        CancelledKeeps(lot, after, adminId, now,
                       AddAll(Audience(lot.bids, lot.watchers, {adminId}), [lot.row.sellerId], {adminId}));
      case AddImage(sellerId) => AddImageKeeps(lot, after, sellerId);
      case RemoveImage(sellerId, position) => RemoveImageKeeps(lot, after, sellerId, position);
      case Start(now) => StartKeeps(lot, after, now);
      case Settle(now) => SettleKeeps(lot, after, now);
      case Watch(userId) => WatchKeeps(lot, after, userId);
      case Unwatch(userId) => UnwatchKeeps(lot, after, userId);
    }
  }

  // ---- A committed bid keeps it ----

  /** What Judge established about the row it read. */
  ghost predicate JudgedOn(row: Auction, attempt: Attempt, extension: ExtensionDecision) {
    && row.status == ACTIVE
    && row.currentEndAt.Some? && row.currentEndAt.value > attempt.now
    && row.sellerId != attempt.bidderId
    && attempt.amount >= CalculateMinimumBid(row)
    && extension == CalculateAntiSniping(row.currentEndAt.value, row.extensionCount, attempt.now)
  }

  lemma {:induction false} BidKeepsLedger(lot: Lot, after: Lot, attempt: Attempt, extension: ExtensionDecision)
    requires Ledger(lot.row, lot.bids) && Outcome(lot.row, lot.bids) && Gate(lot.row, lot.images, lot.bids)
    requires JudgedOn(lot.row, attempt, extension) && after == WithBid(lot, attempt, lot.row, extension)
    ensures Ledger(after.row, after.bids) && Outcome(after.row, after.bids) && Gate(after.row, after.images, after.bids)
  {
    hide Leader, CalculateAntiSniping, Blank;
  }

  lemma {:induction false} BidEvents(lot: Lot, attempt: Attempt, extension: ExtensionDecision)
    ensures
      var after := WithBid(lot, attempt, lot.row, extension);
      var placed := Event(EvBidPlaced, Some(attempt.bidderId), Some(|lot.bids|));
      && after.row.status == lot.row.status && after.row.bidCount == lot.row.bidCount + 1
      && after.row.extensionCount == lot.row.extensionCount + (if extension.Extension? then 1 else 0)
      && after.events == lot.events + [placed]
           + (if extension.Extension? then [Event(EvExtended, Some(attempt.bidderId), Some(|lot.bids|))] else [])
  {
    hide Leader;
  }

  lemma {:induction false} BidKeepsDeadline(lot: Lot, after: Lot, attempt: Attempt, extension: ExtensionDecision)
    requires Deadline(lot.row, lot.bids, lot.extensions)
    requires JudgedOn(lot.row, attempt, extension) && after == WithBid(lot, attempt, lot.row, extension)
    ensures Deadline(after.row, after.bids, after.extensions)
    ensures extension.Extension? ==> !ExtensionNumberTaken(lot.extensions, extension.extensionNumber)
  {
    var end := lot.row.terms.originalEndAt.value;
    forall i | 0 <= i < |lot.extensions|
      ensures ExtensionOk(end, i, after.extensions[i], after.bids)
      ensures lot.extensions[i].extensionNumber == i + 1
    {
      assert ExtensionOk(end, i, lot.extensions[i], lot.bids);
    }
    if extension.Extension? {
      assert ExtensionOk(end, |lot.extensions|, after.extensions[|lot.extensions|], after.bids);
    }
  }

  lemma {:induction false} BidKeepsLog(lot: Lot, after: Lot, attempt: Attempt, extension: ExtensionDecision)
    requires |lot.bids| == lot.row.bidCount && LogAgrees(lot.row, lot.events)
    requires JudgedOn(lot.row, attempt, extension) && after == WithBid(lot, attempt, lot.row, extension)
    ensures LogAgrees(after.row, after.events)
  {
    BidEvents(lot, attempt, extension);
    hide WithBid, CalculateAntiSniping, CalculateMinimumBid, ReadLog;
    var placed := Event(EvBidPlaced, Some(attempt.bidderId), Some(|lot.bids|));
    ReadLogAppend(lot.events, placed);
    ReadLogAppend(lot.events + [placed], Event(EvExtended, Some(attempt.bidderId), Some(|lot.bids|)));
    assert lot.events + [placed] + [] == lot.events + [placed];
  }

  lemma {:induction false} OneMoreNotice(notices: seq<Notice>, row: Notice, kind: NoticeType)
    ensures OfKind(notices + [row], kind) == OfKind(notices, kind) + if kind == row.kind then [row] else []
  {
    OfKindConcat(notices, [row], kind);
    OfKindAll([row], row.kind, kind);
  }

  lemma {:induction false} OneMoreBid(bids: seq<Bid>, bid: Bid)
    ensures OutbidRows(bids + [bid]) == OutbidRows(bids) +
      if bids == [] || bids[|bids| - 1].bidderId == bid.bidderId then []
      else [Notice(OUTBID, bids[|bids| - 1].bidderId, Some(|bids|), Some(bid.amount))]
  {
    assert (bids + [bid])[..|bids|] == bids;
  }

  lemma {:induction false} BidKeepsTold(lot: Lot, after: Lot, attempt: Attempt, extension: ExtensionDecision)
    requires Leader(lot.bids) == (if lot.bids == [] then None else Some(|lot.bids| - 1))
    requires Told(lot.row, lot.bids, lot.notices)
    requires JudgedOn(lot.row, attempt, extension) && after == WithBid(lot, attempt, lot.row, extension)
    ensures Told(after.row, after.bids, after.notices)
  {
    hide Leader, CalculateAntiSniping, CalculateMinimumBid, OfKind, OutbidRows;
    OneMoreBid(lot.bids, after.bids[|lot.bids|]);
    if lot.bids != [] && lot.bids[|lot.bids| - 1].bidderId != attempt.bidderId {
      var row := Notice(OUTBID, lot.bids[|lot.bids| - 1].bidderId, Some(|lot.bids|), Some(attempt.amount));
      forall kind: NoticeType { OneMoreNotice(lot.notices, row, kind); }
    }
  }

  lemma {:induction false} BidShape(lot: Lot, after: Lot, attempt: Attempt, extension: ExtensionDecision)
    requires JudgedOn(lot.row, attempt, extension) && after == WithBid(lot, attempt, lot.row, extension)
    ensures Evolves(lot, after) && after.images == lot.images && after.watchers == lot.watchers
  {
    hide Leader, CalculateAntiSniping, CalculateMinimumBid;
  }

  lemma {:induction false} BidKeeps(lot: Lot, after: Lot, attempt: Attempt, extension: ExtensionDecision)
    requires LotInv(lot) && JudgedOn(lot.row, attempt, extension)
    requires after == WithBid(lot, attempt, lot.row, extension)
    ensures LotInv(after) && Evolves(lot, after)
    ensures !SequenceTaken(lot.bids, lot.row.bidCount + 1)
    ensures extension.Extension? ==> !ExtensionNumberTaken(lot.extensions, extension.extensionNumber)
  {
    BidShape(lot, after, attempt, extension);
    hide Deadline, LogAgrees, Outcome, Gate, Gallery, Told, Distinct, Evolves, WithBid, Leader, JudgedOn;
    LeaderIsLastBid(lot.row, lot.bids);
    BidKeepsLedger(lot, after, attempt, extension);
    BidKeepsDeadline(lot, after, attempt, extension);
    BidKeepsLog(lot, after, attempt, extension);
    BidKeepsTold(lot, after, attempt, extension);
  }
}
