/**
 * The rows an auction is made of, and the rules that read them without writing
 * anything: minimum bid, anti-sniping, reserve, leading bid, publish gate,
 * audience. Money is in satang, time in milliseconds.
 */
module AuctionRules {
  import opened Wrappers

  type UserId = nat
  type AuctionId = nat
  type CategoryId = nat
  type RequestId = nat
  type Satang = int
  type Millis = int

  const ANTI_SNIPING_WINDOW_MS: Millis := 2 * 60 * 1000
  const ANTI_SNIPING_EXTENSION_MS: Millis := 2 * 60 * 1000
  const MAX_EXTENSIONS: nat := 5
  const MAX_AUCTION_IMAGES: nat := 8

  datatype Status = DRAFT | SCHEDULED | ACTIVE | SOLD | UNSOLD | CANCELLED

  /** What the seller writes and may still edit before the auction opens. */
  datatype Terms = Terms(
    title: string, description: string, condition: nat, categoryId: CategoryId,
    startingPrice: Satang, minBidIncrement: Satang, reservePrice: Option<Satang>,
    scheduledStartAt: Option<Millis>, originalEndAt: Option<Millis>)

  datatype Auction = Auction(
    sellerId: UserId, terms: Terms, status: Status,
    currentPrice: Satang, bidCount: nat,
    currentEndAt: Option<Millis>, extensionCount: nat, rowVersion: nat,
    publishedAt: Option<Millis>, startedAt: Option<Millis>, endedAt: Option<Millis>,
    winnerUserId: Option<UserId>, winningBid: Option<nat>, soldPrice: Option<Satang>)

  datatype Image = Image(position: nat, isPrimary: bool)

  /** A bid's id is its place in its auction's table of bids. */
  datatype Bid = Bid(bidderId: UserId, amount: Satang, sequenceNo: nat, requestId: RequestId, placedAt: Millis)

  datatype ExtensionRow = ExtensionRow(triggeredBy: nat, extensionNumber: nat, previousEndAt: Millis, newEndAt: Millis)

  datatype EventType = EvCreated | EvPublished | EvStarted | EvBidPlaced | EvExtended | EvEnded | EvCancelled

  datatype Event = Event(kind: EventType, actor: Option<UserId>, bid: Option<nat>)

  datatype NoticeType = OUTBID | AUCTION_WON | AUCTION_ENDED | AUCTION_CANCELLED

  datatype Notice = Notice(kind: NoticeType, user: UserId, bid: Option<nat>, price: Option<Satang>)

  /** One auction with every row that points at it. */
  datatype Lot = Lot(
    row: Auction, images: seq<Image>, bids: seq<Bid>, extensions: seq<ExtensionRow>,
    events: seq<Event>, notices: seq<Notice>, watchers: seq<UserId>)

  /** The lowest amount the auction takes right now; no price yet means the starting price. */
  function CalculateMinimumBid(row: Auction): Satang {
    if row.bidCount == 0 then row.terms.startingPrice
    else row.currentPrice + row.terms.minBidIncrement
  }

  function CalculateReserveMet(currentPrice: Satang, reservePrice: Option<Satang>): bool {
    reservePrice.None? || currentPrice >= reservePrice.value
  }

  datatype ExtensionDecision =
    | NoExtension
    | Extension(previousEndAt: Millis, newEndAt: Millis, extensionNumber: nat)

  function CalculateAntiSniping(currentEndAt: Millis, extensionCount: nat, now: Millis): (d: ExtensionDecision)
    ensures d.Extension? <==> currentEndAt - now <= 120_000 && extensionCount < 5
    ensures d.Extension? ==> d.newEndAt - d.previousEndAt == 120_000
    ensures d.Extension? ==> d.previousEndAt == currentEndAt && d.extensionNumber == extensionCount + 1
  {
    if currentEndAt - now > ANTI_SNIPING_WINDOW_MS then NoExtension
    else if extensionCount >= MAX_EXTENSIONS then NoExtension
    else Extension(currentEndAt, currentEndAt + ANTI_SNIPING_EXTENSION_MS, extensionCount + 1)
  }

  // ---- The leading bid ----

  /** LEADING_BID_ORDER: amount descending, then sequence number ascending. */
  predicate Beats(a: Bid, b: Bid) {
    a.amount > b.amount || (a.amount == b.amount && a.sequenceNo < b.sequenceNo)
  }

  /** The bid a query in LEADING_BID_ORDER returns first. */
  function Leader(bids: seq<Bid>): (leader: Option<nat>)
    ensures leader.None? <==> bids == []
    ensures leader.Some? ==> leader.value < |bids|
    ensures leader.Some? ==> forall i | 0 <= i < |bids| :: !Beats(bids[i], bids[leader.value])
  {
    if bids == [] then None
    else
      var last := |bids| - 1;
      var before := Leader(bids[..last]);
      if before.None? || Beats(bids[last], bids[before.value]) then Some(last) else before
  }

  // ---- The people to tell ----

  ghost predicate Distinct<T>(s: seq<T>) {
    forall i, j | 0 <= i < j < |s| :: s[i] != s[j]
  }

  function Bidders(bids: seq<Bid>): (users: seq<UserId>)
    ensures |users| == |bids|
    ensures forall i | 0 <= i < |bids| :: users[i] == bids[i].bidderId
  {
    seq(|bids|, i requires 0 <= i < |bids| => bids[i].bidderId)
  }

  /** Adds to the audience, in order, everybody not excluded and not already there. */
  function AddAll(audience: seq<UserId>, users: seq<UserId>, excluded: set<UserId>): seq<UserId> {
    if users == [] then audience
    else
      var last := |users| - 1;
      var r := AddAll(audience, users[..last], excluded);
      if users[last] in excluded || users[last] in r then r else r + [users[last]]
  }

  lemma {:induction false} AddAllMembers(audience: seq<UserId>, users: seq<UserId>, excluded: set<UserId>)
    ensures Distinct(audience) ==> Distinct(AddAll(audience, users, excluded))
    ensures forall u :: u in AddAll(audience, users, excluded) <==> u in audience || (u in users && u !in excluded)
    decreases |users|
  {
    if users != [] {
      var last := |users| - 1;
      AddAllMembers(audience, users[..last], excluded);
      assert users == users[..last] + [users[last]];
    }
  }

  /** Everybody who bid or watches, once each, and nobody excluded. */
  lemma {:induction false} AudienceMembers(bids: seq<Bid>, watchers: seq<UserId>, excluded: set<UserId>)
    ensures Distinct(Audience(bids, watchers, excluded))
    ensures forall u :: u in Audience(bids, watchers, excluded) <==>
              u !in excluded && (u in watchers || exists i | 0 <= i < |bids| :: bids[i].bidderId == u)
  {
    AddAllMembers([], Bidders(bids), excluded);
    AddAllMembers(AddAll([], Bidders(bids), excluded), watchers, excluded);
    forall u
      ensures u in Bidders(bids) <==> exists i | 0 <= i < |bids| :: bids[i].bidderId == u
    {
      if i :| 0 <= i < |bids| && bids[i].bidderId == u {
        assert Bidders(bids)[i] == u;
      }
    }
  }

  function Audience(bids: seq<Bid>, watchers: seq<UserId>, excluded: set<UserId>): seq<UserId> {
    AddAll(AddAll([], Bidders(bids), excluded), watchers, excluded)
  }

  function NoticesTo(users: seq<UserId>, kind: NoticeType, price: Option<Satang>): (rows: seq<Notice>)
    ensures |rows| == |users|
    ensures forall i | 0 <= i < |users| :: rows[i] == Notice(kind, users[i], None, price)
  {
    seq(|users|, i requires 0 <= i < |users| => Notice(kind, users[i], None, price))
  }

  // ---- The publish gate ----

  datatype DraftIssueCode =
    | TITLE_REQUIRED | DESCRIPTION_REQUIRED | CONDITION_REQUIRED | CATEGORY_REQUIRED | CATEGORY_INACTIVE
    | STARTING_PRICE_NOT_POSITIVE | MIN_BID_INCREMENT_NOT_POSITIVE
    | START_AT_REQUIRED | END_AT_REQUIRED | END_AT_NOT_AFTER_START_AT | END_AT_IN_THE_PAST
    | IMAGES_REQUIRED | RESERVE_NOT_POSITIVE | RESERVE_BELOW_STARTING_PRICE

  /** The slice of a draft the gate measures. */
  datatype DraftForPublish = DraftForPublish(
    title: string, description: string, condition: Option<nat>, categoryActive: Option<bool>,
    startingPrice: Satang, minBidIncrement: Satang, reservePrice: Option<Satang>,
    scheduledStartAt: Option<Millis>, originalEndAt: Option<Millis>, imageCount: nat)

  /** White space as String.prototype.trim removes it. */
  predicate IsSpace(c: char) {
    c == ' ' || '\t' <= c <= '\r' || c == '\U{00A0}' || c == '\U{1680}' || '\U{2000}' <= c <= '\U{200A}'
    || c == '\U{2028}' || c == '\U{2029}' || c == '\U{202F}' || c == '\U{205F}' || c == '\U{3000}' || c == '\U{FEFF}'
  }

  predicate Blank(s: string) {
    forall i | 0 <= i < |s| :: IsSpace(s[i])
  }

  /** The draft does not meet the rule this code stands for. */
  predicate Unmet(code: DraftIssueCode, draft: DraftForPublish, now: Millis) {
    match code
    case TITLE_REQUIRED => Blank(draft.title)
    case DESCRIPTION_REQUIRED => Blank(draft.description)
    case CONDITION_REQUIRED => draft.condition.None?
    case CATEGORY_REQUIRED => draft.categoryActive.None?
    case CATEGORY_INACTIVE => draft.categoryActive == Some(false)
    case STARTING_PRICE_NOT_POSITIVE => draft.startingPrice <= 0
    case MIN_BID_INCREMENT_NOT_POSITIVE => draft.minBidIncrement <= 0
    case START_AT_REQUIRED => draft.scheduledStartAt.None?
    case END_AT_REQUIRED => draft.originalEndAt.None?
    case END_AT_NOT_AFTER_START_AT =>
      draft.scheduledStartAt.Some? && draft.originalEndAt.Some?
          && draft.originalEndAt.value <= draft.scheduledStartAt.value
    case END_AT_IN_THE_PAST => draft.originalEndAt.Some? && draft.originalEndAt.value <= now
    case IMAGES_REQUIRED => draft.imageCount == 0
    case RESERVE_NOT_POSITIVE => draft.reservePrice.Some? && draft.reservePrice.value <= 0
    case RESERVE_BELOW_STARTING_PRICE => draft.reservePrice.Some? && 0 < draft.reservePrice.value < draft.startingPrice
  }

  ghost predicate Publishable(draft: DraftForPublish, now: Millis) {
    forall code: DraftIssueCode :: !Unmet(code, draft, now)
  }

  /** The rules that depend neither on the clock nor on what an admin does to a category later. */
  ghost predicate GateHolds(terms: Terms, images: seq<Image>) {
    && !Blank(terms.title) && !Blank(terms.description)
    && terms.startingPrice > 0 && terms.minBidIncrement > 0
    && terms.scheduledStartAt.Some? && terms.originalEndAt.Some?
    && terms.originalEndAt.value > terms.scheduledStartAt.value
    && images != []
    && (terms.reservePrice.Some? ==> terms.reservePrice.value > 0 && terms.reservePrice.value >= terms.startingPrice)
  }

  function GateView(terms: Terms, images: seq<Image>, categories: map<CategoryId, bool>): DraftForPublish {
    DraftForPublish(
      terms.title, terms.description, Some(terms.condition),
      if terms.categoryId in categories then Some(categories[terms.categoryId]) else None,
      terms.startingPrice, terms.minBidIncrement, terms.reservePrice,
      terms.scheduledStartAt, terms.originalEndAt, |images|)
  }

  /** Passing the gate is the lasting rules plus an active category and an end still to come. */
  lemma {:induction false} PublishableMeans(terms: Terms, images: seq<Image>, categories: map<CategoryId, bool>,
      now: Millis)
    ensures Publishable(GateView(terms, images, categories), now) <==>
            GateHolds(terms, images) && terms.categoryId in categories && categories[terms.categoryId]
            && terms.originalEndAt.value > now
  {
    var draft := GateView(terms, images, categories);
    if Publishable(draft, now) {
      assert !Unmet(TITLE_REQUIRED, draft, now) && !Unmet(DESCRIPTION_REQUIRED, draft, now);
      assert !Unmet(CATEGORY_REQUIRED, draft, now) && !Unmet(CATEGORY_INACTIVE, draft, now);
      assert !Unmet(STARTING_PRICE_NOT_POSITIVE, draft, now) && !Unmet(MIN_BID_INCREMENT_NOT_POSITIVE, draft, now);
      assert !Unmet(START_AT_REQUIRED, draft, now) && !Unmet(END_AT_REQUIRED, draft, now);
      assert !Unmet(END_AT_NOT_AFTER_START_AT, draft, now) && !Unmet(END_AT_IN_THE_PAST, draft, now);
      assert !Unmet(IMAGES_REQUIRED, draft, now);
      assert !Unmet(RESERVE_NOT_POSITIVE, draft, now) && !Unmet(RESERVE_BELOW_STARTING_PRICE, draft, now);
    }
  }
}
