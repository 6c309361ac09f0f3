/**
 * What each transaction writes, as a function of the rows it found. A
 * transaction that is refused or rolled back answers Err and writes nothing.
 * Placing a bid is the one flow that is not atomic here: it is a sequence of
 * phases, and anything may happen to the database between two of them.
 */
module AuctionSteps {
  import opened Wrappers
  import opened AuctionRules

  datatype Error =
    | AuctionNotFound | DraftNotReady | EditLeavesIncomplete | NotSellerChangeable | HasBids
    | NotCancellableByAdmin | TooManyImages | ImageNotFound | CategoryUnusable | NotDue

  datatype Change<T> = Keep | Set(value: T)

  /** The seller's edit: every field optional; the drafted end time lands in both end columns. */
  datatype Patch = Patch(
    title: Change<string>, description: Change<string>, condition: Change<nat>, categoryId: Change<CategoryId>,
    startingPrice: Change<Satang>, minBidIncrement: Change<Satang>, reservePrice: Change<Option<Satang>>,
    scheduledStartAt: Change<Option<Millis>>, scheduledEndAt: Change<Option<Millis>>, images: Change<nat>)

  function Apply<T>(c: Change<T>, current: T): T {
    if c.Set? then c.value else current
  }

  function PatchTerms(terms: Terms, p: Patch): Terms {
    Terms(
      Apply(p.title, terms.title), Apply(p.description, terms.description), Apply(p.condition, terms.condition),
      Apply(p.categoryId, terms.categoryId), Apply(p.startingPrice, terms.startingPrice),
      Apply(p.minBidIncrement, terms.minBidIncrement), Apply(p.reservePrice, terms.reservePrice),
      Apply(p.scheduledStartAt, terms.scheduledStartAt), Apply(p.scheduledEndAt, terms.originalEndAt))
  }

  /** A replaced gallery: positions 0..n-1, the first one primary. */
  function FreshImages(n: nat): (images: seq<Image>)
    ensures |images| == n
    ensures forall i | 0 <= i < n :: images[i] == Image(i, i == 0)
  {
    seq(n, i requires 0 <= i < n => Image(i, i == 0))
  }

  function FindImage(images: seq<Image>, position: nat): (k: Option<nat>)
    ensures k.Some? ==> k.value < |images| && images[k.value].position == position
    ensures k.None? ==> forall i | 0 <= i < |images| :: images[i].position != position
  {
    if images == [] then None
    else if images[0].position == position then Some(0)
    else
      var k := FindImage(images[1..], position);
      if k.None? then None else Some(k.value + 1)
  }

  /** Takes one picture out; losing the primary promotes whichever is first now. */
  function WithoutImage(images: seq<Image>, k: nat): seq<Image>
    requires k < |images|
  {
    var rest := images[..k] + images[k + 1..];
    if images[k].isPrimary && rest != [] then rest[0 := rest[0].(isPrimary := true)] else rest
  }

  function Drafted(sellerId: UserId, terms: Terms, imageCount: nat): Lot {
    Lot(
      Auction(sellerId, terms, DRAFT, 0, 0, terms.originalEndAt, 0, 1, None, None, None, None, None, None),
      FreshImages(imageCount), [], [], [Event(EvCreated, Some(sellerId), None)], [], [])
  }

  predicate SellerChangeable(status: Status) { status == DRAFT || status == SCHEDULED }

  predicate AdminCancellable(status: Status) { status == DRAFT || status == SCHEDULED || status == ACTIVE }

  predicate PubliclyVisible(status: Status) {
    status == SCHEDULED || status == ACTIVE || status == SOLD || status == UNSOLD
  }

  datatype Op =
    | Publish(sellerId: UserId, now: Millis)
    | Edit(sellerId: UserId, patch: Patch, now: Millis)
    | CancelOwn(sellerId: UserId, now: Millis)
    | CancelByAdmin(adminId: UserId, now: Millis)
    | AddImage(sellerId: UserId)
    | RemoveImage(sellerId: UserId, position: nat)
    | Start(now: Millis)
    | Settle(now: Millis)
    | Watch(userId: UserId)
    | Unwatch(userId: UserId)

  ghost function PublishStep(lot: Lot, sellerId: UserId, now: Millis, categories: map<CategoryId, bool>): Result<Lot,
      Error> {
    if lot.row.sellerId != sellerId || lot.row.status != DRAFT then Err(AuctionNotFound)
    else if !Publishable(GateView(lot.row.terms, lot.images, categories), now) then Err(DraftNotReady)
    else
      PublishableMeans(lot.row.terms, lot.images, categories, now);
      var immediately := lot.row.terms.scheduledStartAt.value <= now;
      Ok(lot.(
        row := lot.row.(
          status := if immediately then ACTIVE else SCHEDULED,
          publishedAt := Some(now), startedAt := if immediately then Some(now) else None,
          rowVersion := lot.row.rowVersion + 1),
        events := lot.events + [Event(EvPublished, Some(sellerId), None)]
                  + if immediately then [Event(EvStarted, Some(sellerId), None)] else []))
  }

  predicate CategoryUsable(c: Change<CategoryId>, categories: map<CategoryId, bool>) {
    c.Set? ==> c.value in categories && categories[c.value]
  }

  ghost function EditStep(lot: Lot, sellerId: UserId, p: Patch, now: Millis,
      categories: map<CategoryId, bool>): Result<Lot, Error> {
    if !CategoryUsable(p.categoryId, categories) then Err(CategoryUnusable)
    else if lot.row.sellerId != sellerId then Err(AuctionNotFound)
    else if !SellerChangeable(lot.row.status) then Err(NotSellerChangeable)
    else if lot.row.bidCount > 0 then Err(HasBids)
    else
      var terms := PatchTerms(lot.row.terms, p);
      var images := if p.images.Set? then FreshImages(p.images.value) else lot.images;
      if lot.row.status == SCHEDULED && !Publishable(GateView(terms, images, categories), now)
          then Err(EditLeavesIncomplete)
      else
        Ok(lot.(
          row := lot.row.(terms := terms, currentEndAt := Apply(p.scheduledEndAt, lot.row.currentEndAt),
                          rowVersion := lot.row.rowVersion + 1),
          images := images))
  }

  function Cancelled(lot: Lot, actor: UserId, now: Millis, recipients: seq<UserId>): Lot {
    lot.(
      row := lot.row.(status := CANCELLED, endedAt := Some(now), rowVersion := lot.row.rowVersion + 1),
      events := lot.events + [Event(EvCancelled, Some(actor), None)],
      notices := lot.notices + NoticesTo(recipients, AUCTION_CANCELLED, None))
  }

  function CancelOwnStep(lot: Lot, sellerId: UserId, now: Millis): Result<Lot, Error> {
    if lot.row.sellerId != sellerId then Err(AuctionNotFound)
    else if !SellerChangeable(lot.row.status) then Err(NotSellerChangeable)
    else if lot.row.bidCount > 0 then Err(HasBids)
    else Ok(Cancelled(lot, sellerId, now, Audience(lot.bids, lot.watchers, {sellerId})))
  }

  function CancelByAdminStep(lot: Lot, adminId: UserId, now: Millis): Result<Lot, Error> {
    if !AdminCancellable(lot.row.status) then Err(NotCancellableByAdmin)
    else Ok(Cancelled(lot, adminId, now,
                      AddAll(Audience(lot.bids, lot.watchers, {adminId}), [lot.row.sellerId], {adminId})))
  }

  function AddImageStep(lot: Lot, sellerId: UserId): Result<Lot, Error> {
    if lot.row.sellerId != sellerId || lot.row.status != DRAFT then Err(AuctionNotFound)
    else if |lot.images| >= MAX_AUCTION_IMAGES then Err(TooManyImages)
    else
      var position := if lot.images == [] then 0 else lot.images[|lot.images| - 1].position + 1;
      Ok(lot.(
        row := lot.row.(rowVersion := lot.row.rowVersion + 1),
        images := lot.images + [Image(position, lot.images == [])]))
  }

  function RemoveImageStep(lot: Lot, sellerId: UserId, position: nat): Result<Lot, Error> {
    var k := FindImage(lot.images, position);
    if lot.row.sellerId != sellerId || lot.row.status != DRAFT || k.None? then Err(ImageNotFound)
    else Ok(lot.(row := lot.row.(rowVersion := lot.row.rowVersion + 1), images := WithoutImage(lot.images, k.value)))
  }

  /** The guarded write the timer makes for one auction it found due to start. */
  function StartStep(lot: Lot, now: Millis): Result<Lot, Error> {
    if lot.row.status != SCHEDULED || lot.row.terms.scheduledStartAt.None?
        || lot.row.terms.scheduledStartAt.value > now then
      Err(NotDue)
    else
      Ok(lot.(
        row := lot.row.(status := ACTIVE, startedAt := Some(now), rowVersion := lot.row.rowVersion + 1),
        events := lot.events + [Event(EvStarted, None, None)]))
  }

  predicate DueToSettle(row: Auction, now: Millis) {
    row.status == ACTIVE && row.currentEndAt.Some? && row.currentEndAt.value <= now
  }

  function IsSold(lot: Lot, top: Option<nat>): bool
    requires top.Some? ==> top.value < |lot.bids|
  {
    top.Some? && CalculateReserveMet(lot.bids[top.value].amount, lot.row.terms.reservePrice)
  }

  function EndedRecipients(lot: Lot, winner: Option<UserId>): seq<UserId> {
    var excluded := if winner.Some? then {winner.value} else {};
    AddAll(Audience(lot.bids, lot.watchers, excluded), [lot.row.sellerId], excluded)
  }

  /** Everything settlement writes once it has decided which bid is on top. */
  function SettledWith(lot: Lot, top: Option<nat>, now: Millis): Lot
    requires top.Some? ==> top.value < |lot.bids|
  {
    var sold := IsSold(lot, top);
    var winner := if sold then Some(lot.bids[top.value].bidderId) else None;
    var price := if top.Some? then Some(lot.bids[top.value].amount) else None;
    lot.(
      row := lot.row.(
        status := if sold then SOLD else UNSOLD, endedAt := Some(now),
        winnerUserId := winner,
        winningBid := if sold then top else None,
        soldPrice := if sold then price else None,
        rowVersion := lot.row.rowVersion + 1),
      events := lot.events + [Event(EvEnded, None, top)],
      notices := lot.notices
                 + (if sold then [Notice(AUCTION_WON, winner.value, top, price)] else [])
                 + NoticesTo(EndedRecipients(lot, winner), AUCTION_ENDED, price))
  }

  function SettleStep(lot: Lot, now: Millis): Result<Lot, Error> {
    if !DueToSettle(lot.row, now) then Err(NotDue) else Ok(SettledWith(lot, Leader(lot.bids), now))
  }

  function WatchStep(lot: Lot, userId: UserId): Result<Lot, Error> {
    if !PubliclyVisible(lot.row.status) then Err(AuctionNotFound)
    else if userId in lot.watchers then Ok(lot)
    else Ok(lot.(watchers := lot.watchers + [userId]))
  }

  function Without(users: seq<UserId>, userId: UserId): seq<UserId> {
    if users == [] then []
    else if users[0] == userId then Without(users[1..], userId)
    else [users[0]] + Without(users[1..], userId)
  }

  ghost function OpStep(lot: Lot, op: Op, categories: map<CategoryId, bool>): Result<Lot, Error> {
    match op
    case Publish(sellerId, now) => PublishStep(lot, sellerId, now, categories)
    case Edit(sellerId, patch, now) => EditStep(lot, sellerId, patch, now, categories)
    case CancelOwn(sellerId, now) => CancelOwnStep(lot, sellerId, now)
    case CancelByAdmin(adminId, now) => CancelByAdminStep(lot, adminId, now)
    case AddImage(sellerId) => AddImageStep(lot, sellerId)
    case RemoveImage(sellerId, position) => RemoveImageStep(lot, sellerId, position)
    case Start(now) => StartStep(lot, now)
    case Settle(now) => SettleStep(lot, now)
    case Watch(userId) => WatchStep(lot, userId)
    case Unwatch(userId) => Ok(lot.(watchers := Without(lot.watchers, userId)))
  }

  // ---- Placing a bid ----

  datatype BidRef = BidRef(auctionId: AuctionId, index: nat)

  /** The tables bidding touches; `requests` is the unique index on clientRequestId. */
  datatype Db = Db(lots: map<AuctionId, Lot>, requests: map<RequestId, BidRef>, categories: map<CategoryId, bool>)

  datatype Refusal =
    | UnknownAuction | NotOpen | HasEnded | OwnAuction | BelowMinimum(minimum: Satang)
    | SomebodyBidFirst | RequestUsedElsewhere | RequestUsedForOtherAmount | Unconfirmed | UnexpectedViolation

  datatype Answer = Recorded(bid: BidRef) | Replayed(bid: BidRef) | Refused(why: Refusal)

  datatype Phase =
    | Fresh
    | LookedUp
    | Judged(snapshot: Auction, extension: ExtensionDecision)
    | LostRace
    | Violated
    | Answered(answer: Answer)

  /** One call of placeBid; `now` was read before its transaction began. */
  datatype Attempt = Attempt(
    auctionId: AuctionId, bidderId: UserId, amount: Satang, requestId: RequestId, now: Millis, phase: Phase)

  /** The bid an index entry points at, or nothing if the entry is not backed by a row. */
  function BidAt(db: Db, ref: BidRef): Option<Bid> {
    if ref.auctionId in db.lots && ref.index < |db.lots[ref.auctionId].bids|
    then Some(db.lots[ref.auctionId].bids[ref.index]) else None
  }

  function ReplayOrRefuse(db: Db, ref: BidRef, attempt: Attempt): Answer {
    if ref.auctionId != attempt.auctionId then Refused(RequestUsedElsewhere)
    else if BidAt(db, ref).None? || BidAt(db, ref).value.amount != attempt.amount
        then Refused(RequestUsedForOtherAmount)
    else Replayed(ref)
  }

  /** The look-up by request id, and what to do when it finds nothing. */
  function LookUp(db: Db, attempt: Attempt, otherwise: Phase): Phase {
    if attempt.requestId in db.requests
    then Answered(ReplayOrRefuse(db, db.requests[attempt.requestId], attempt))
    else otherwise
  }

  /** Judges the attempt against the row as read now; every check of the amount and the clock is here. */
  function Judge(db: Db, attempt: Attempt): Phase {
    if attempt.auctionId !in db.lots then Answered(Refused(UnknownAuction))
    else
      var row := db.lots[attempt.auctionId].row;
      if row.status != ACTIVE then Answered(Refused(NotOpen))
      else if row.currentEndAt.None? || row.currentEndAt.value <= attempt.now then Answered(Refused(HasEnded))
      else if row.sellerId == attempt.bidderId then Answered(Refused(OwnAuction))
      else if attempt.amount < CalculateMinimumBid(row) then Answered(Refused(BelowMinimum(CalculateMinimumBid(row))))
      else Judged(row, CalculateAntiSniping(row.currentEndAt.value, row.extensionCount, attempt.now))
  }

  predicate SequenceTaken(bids: seq<Bid>, sequenceNo: nat) {
    exists i | 0 <= i < |bids| :: bids[i].sequenceNo == sequenceNo
  }

  predicate ExtensionNumberTaken(extensions: seq<ExtensionRow>, extensionNumber: nat) {
    exists i | 0 <= i < |extensions| :: extensions[i].extensionNumber == extensionNumber
  }

  /** The where clause of the guarded update. */
  predicate GuardMatches(row: Auction, snapshot: Auction, now: Millis) {
    && row.status == ACTIVE
    && row.currentEndAt.Some? && row.currentEndAt.value > now
    && row.rowVersion == snapshot.rowVersion
  }

  /** The rows an accepted bid leaves behind. The new number comes from the snapshot, the counters from the row. */
  function WithBid(lot: Lot, attempt: Attempt, snapshot: Auction, extension: ExtensionDecision): Lot {
    var id := |lot.bids|;
    var leader := Leader(lot.bids);
    var bumped := lot.row.(currentPrice := attempt.amount, bidCount := lot.row.bidCount + 1,
        rowVersion := lot.row.rowVersion + 1);
    var placed := Event(EvBidPlaced, Some(attempt.bidderId), Some(id));
    var bids := lot.bids + [Bid(attempt.bidderId, attempt.amount, snapshot.bidCount + 1, attempt.requestId,
        attempt.now)];
    var notices :=
      if leader.Some? && lot.bids[leader.value].bidderId != attempt.bidderId
      then lot.notices + [Notice(OUTBID, lot.bids[leader.value].bidderId, Some(id), Some(attempt.amount))]
      else lot.notices;
    match extension
    case NoExtension =>
      lot.(row := bumped, bids := bids, events := lot.events + [placed], notices := notices)
    case Extension(previousEndAt, newEndAt, number) =>
      lot.(
        row := bumped.(currentEndAt := Some(newEndAt), extensionCount := lot.row.extensionCount + 1),
        bids := bids,
        extensions := lot.extensions + [ExtensionRow(id, number, previousEndAt, newEndAt)],
        events := lot.events + [placed] + [Event(EvExtended, Some(attempt.bidderId), Some(id))],
        notices := notices)
  }

  /** The guarded update and the inserts behind it, as one step; a violated unique index undoes all of it. */
  function Commit(db: Db, attempt: Attempt, snapshot: Auction, extension: ExtensionDecision): (Db, Phase) {
    if attempt.auctionId !in db.lots || !GuardMatches(db.lots[attempt.auctionId].row, snapshot, attempt.now)
        then (db, LostRace)
    else
      var lot := db.lots[attempt.auctionId];
      if attempt.requestId in db.requests then (db, Violated)
      else if SequenceTaken(lot.bids, snapshot.bidCount + 1)
           || (extension.Extension? && ExtensionNumberTaken(lot.extensions, extension.extensionNumber))
      then (db, Answered(Refused(UnexpectedViolation)))
      else
        var ref := BidRef(attempt.auctionId, |lot.bids|);
        (db.(lots := db.lots[attempt.auctionId := WithBid(lot, attempt, snapshot, extension)],
             requests := db.requests[attempt.requestId := ref]),
         Answered(Recorded(ref)))
  }

  /** The next thing this attempt does. */
  function Advance(db: Db, attempt: Attempt): (Db, Phase) {
    match attempt.phase
    case Fresh => (db, LookUp(db, attempt, LookedUp))
    case LookedUp => (db, Judge(db, attempt))
    case Judged(snapshot, extension) => Commit(db, attempt, snapshot, extension)
    case LostRace => (db, LookUp(db, attempt, Answered(Refused(SomebodyBidFirst))))
    case Violated => (db, LookUp(db, attempt, Answered(Refused(Unconfirmed))))
    case Answered(_) => (db, attempt.phase)
  }

  /** One transaction on one auction; refused, or on an unknown id, it leaves every table alone. */
  ghost function WithOp(db: Db, id: AuctionId, op: Op): Db {
    if id !in db.lots || OpStep(db.lots[id], op, db.categories).Err? then db
    else db.(lots := db.lots[id := OpStep(db.lots[id], op, db.categories).value])
  }

  function WithDraft(db: Db, id: AuctionId, sellerId: UserId, terms: Terms, imageCount: nat): Db {
    if id in db.lots || !CategoryUsable(Set(terms.categoryId), db.categories) then db
    else db.(lots := db.lots[id := Drafted(sellerId, terms, imageCount)])
  }
}
