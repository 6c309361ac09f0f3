/**
 * The auction tables as the services change them: every method is one
 * transaction, written row by row in the order the service writes, and what it
 * leaves behind is the step it is proved against.
 */
module AuctionDatabase {
  import opened Wrappers
  import opened AuctionRules
  import opened AuctionSteps
  import opened AuctionInvariant
  import opened AuctionRuns
  import opened AuctionTheorems
  import opened AuctionAnswers

  // ---- The publish gate, rule by rule ----

  /** Where a rule stands in the order the gate checks them. */
  function Place(code: DraftIssueCode): nat {
    match code
    case TITLE_REQUIRED => 0
    case DESCRIPTION_REQUIRED => 1
    case CONDITION_REQUIRED => 2
    case CATEGORY_REQUIRED => 3
    case CATEGORY_INACTIVE => 4
    case STARTING_PRICE_NOT_POSITIVE => 5
    case MIN_BID_INCREMENT_NOT_POSITIVE => 6
    case START_AT_REQUIRED => 7
    case END_AT_REQUIRED => 8
    case END_AT_NOT_AFTER_START_AT => 9
    case END_AT_IN_THE_PAST => 10
    case IMAGES_REQUIRED => 11
    case RESERVE_NOT_POSITIVE => 12
    case RESERVE_BELOW_STARTING_PRICE => 13
  }

  /** The issues among the first n rules, each once, in order. */
  ghost predicate Collected(issues: seq<DraftIssueCode>, draft: DraftForPublish, now: Millis, n: nat) {
    && (forall code :: code in issues <==> Unmet(code, draft, now) && Place(code) < n)
    && (forall i, j | 0 <= i < j < |issues| :: Place(issues[i]) < Place(issues[j]))
  }

  lemma {:induction false} NextRule(issues: seq<DraftIssueCode>, code: DraftIssueCode, draft: DraftForPublish,
      now: Millis)
    requires Collected(issues, draft, now, Place(code))
    ensures Unmet(code, draft, now) ==> Collected(issues + [code], draft, now, Place(code) + 1)
    ensures !Unmet(code, draft, now) ==> Collected(issues, draft, now, Place(code) + 1)
  {
    hide Unmet;
    assert forall other :: Place(other) == Place(code) ==> other == code;
    forall i | 0 <= i < |issues|
      ensures Place(issues[i]) < Place(code)
    {
      assert issues[i] in issues;
    }
  }

  /** Every unmet rule and no other, in order; none when, and only when, the draft may be published. */
  method ValidateDraftForPublish(draft: DraftForPublish, now: Millis) returns (issues: seq<DraftIssueCode>)
    ensures issues == [] <==> Publishable(draft, now)
    ensures forall code :: code in issues <==> Unmet(code, draft, now)
    ensures forall i, j | 0 <= i < j < |issues| :: Place(issues[i]) < Place(issues[j])
  {
    issues := ValidateContent(draft, now);
    issues := ValidateCategory(draft, now, issues);
    issues := ValidateMoney(draft, now, issues);
    issues := ValidateSchedule(draft, now, issues);
    issues := ValidateImagesAndReserve(draft, now, issues);
    hide Unmet;
    if issues != [] {
      assert issues[0] in issues;
    }
  }

  method ValidateContent(draft: DraftForPublish, now: Millis) returns (issues: seq<DraftIssueCode>)
    ensures Collected(issues, draft, now, 3)
  {
    issues := [];
    assert Collected(issues, draft, now, 0);
    hide Collected;
    NextRule(issues, TITLE_REQUIRED, draft, now);
    if Blank(draft.title) { issues := issues + [TITLE_REQUIRED]; }
    NextRule(issues, DESCRIPTION_REQUIRED, draft, now);
    if Blank(draft.description) { issues := issues + [DESCRIPTION_REQUIRED]; }
    NextRule(issues, CONDITION_REQUIRED, draft, now);
    if draft.condition.None? { issues := issues + [CONDITION_REQUIRED]; }
  }

  method ValidateCategory(draft: DraftForPublish, now: Millis, before: seq<DraftIssueCode>)
      returns (issues: seq<DraftIssueCode>)
    requires Collected(before, draft, now, 3)
    ensures Collected(issues, draft, now, 5)
  {
    hide Collected;
    issues := before;
    NextRule(issues, CATEGORY_REQUIRED, draft, now);
    if draft.categoryActive.None? {
      issues := issues + [CATEGORY_REQUIRED];
      NextRule(issues, CATEGORY_INACTIVE, draft, now);
    } else {
      NextRule(issues, CATEGORY_INACTIVE, draft, now);
      if !draft.categoryActive.value { issues := issues + [CATEGORY_INACTIVE]; }
    }
  }

  method ValidateMoney(draft: DraftForPublish, now: Millis, before: seq<DraftIssueCode>)
      returns (issues: seq<DraftIssueCode>)
    requires Collected(before, draft, now, 5)
    ensures Collected(issues, draft, now, 7)
  {
    hide Collected;
    issues := before;
    NextRule(issues, STARTING_PRICE_NOT_POSITIVE, draft, now);
    if draft.startingPrice <= 0 { issues := issues + [STARTING_PRICE_NOT_POSITIVE]; }
    NextRule(issues, MIN_BID_INCREMENT_NOT_POSITIVE, draft, now);
    if draft.minBidIncrement <= 0 { issues := issues + [MIN_BID_INCREMENT_NOT_POSITIVE]; }
  }

  method ValidateSchedule(draft: DraftForPublish, now: Millis, before: seq<DraftIssueCode>)
      returns (issues: seq<DraftIssueCode>)
    requires Collected(before, draft, now, 7)
    ensures Collected(issues, draft, now, 11)
  {
    hide Collected;
    issues := before;
    NextRule(issues, START_AT_REQUIRED, draft, now);
    if draft.scheduledStartAt.None? { issues := issues + [START_AT_REQUIRED]; }
    NextRule(issues, END_AT_REQUIRED, draft, now);
    if draft.originalEndAt.None? { issues := issues + [END_AT_REQUIRED]; }
    NextRule(issues, END_AT_NOT_AFTER_START_AT, draft, now);
    if draft.scheduledStartAt.Some? && draft.originalEndAt.Some?
        && draft.originalEndAt.value <= draft.scheduledStartAt.value {
      issues := issues + [END_AT_NOT_AFTER_START_AT];
    }
    NextRule(issues, END_AT_IN_THE_PAST, draft, now);
    if draft.originalEndAt.Some? && draft.originalEndAt.value <= now { issues := issues + [END_AT_IN_THE_PAST]; }
  }

  method ValidateImagesAndReserve(draft: DraftForPublish, now: Millis, before: seq<DraftIssueCode>)
      returns (issues: seq<DraftIssueCode>)
    requires Collected(before, draft, now, 11)
    ensures Collected(issues, draft, now, 14)
  {
    hide Collected;
    issues := before;
    NextRule(issues, IMAGES_REQUIRED, draft, now);
    if draft.imageCount == 0 { issues := issues + [IMAGES_REQUIRED]; }
    NextRule(issues, RESERVE_NOT_POSITIVE, draft, now);
    if draft.reservePrice.Some? && draft.reservePrice.value <= 0 {
      issues := issues + [RESERVE_NOT_POSITIVE];
      NextRule(issues, RESERVE_BELOW_STARTING_PRICE, draft, now);
    } else {
      NextRule(issues, RESERVE_BELOW_STARTING_PRICE, draft, now);
      if draft.reservePrice.Some? && draft.reservePrice.value < draft.startingPrice {
        issues := issues + [RESERVE_BELOW_STARTING_PRICE];
      }
    }
  }

  /** Bidders first, then watchers, each person once, nobody excluded. */
  method FindAuctionAudience(bids: seq<Bid>, watchers: seq<UserId>, excluded: set<UserId>)
      returns (audience: seq<UserId>)
    ensures audience == Audience(bids, watchers, excluded)
    ensures Distinct(audience)
    ensures forall u :: u in audience <==>
              u !in excluded && (u in watchers || exists i | 0 <= i < |bids| :: bids[i].bidderId == u)
  {
    var bidders := Bidders(bids);
    audience := [];
    for i := 0 to |bidders|
      invariant audience == AddAll([], bidders[..i], excluded)
    {
      assert bidders[..i + 1][..i] == bidders[..i];
      if bidders[i] !in excluded && bidders[i] !in audience { audience := audience + [bidders[i]]; }
    }
    assert bidders[..|bidders|] == bidders;
    ghost var first := audience;
    for i := 0 to |watchers|
      invariant audience == AddAll(first, watchers[..i], excluded)
    {
      assert watchers[..i + 1][..i] == watchers[..i];
      if watchers[i] !in excluded && watchers[i] !in audience { audience := audience + [watchers[i]]; }
    }
    assert watchers[..|watchers|] == watchers;
    AudienceMembers(bids, watchers, excluded);
  }

  /** The audience of a settlement: whoever did not win, the seller included. */
  method EndedAudience(lot: Lot, winner: Option<UserId>) returns (recipients: seq<UserId>)
    ensures recipients == EndedRecipients(lot, winner)
    ensures Distinct(recipients)
    ensures forall u ::
        u in recipients <==> winner != Some(u) && (u == lot.row.sellerId || u in lot.watchers || HasBid(lot, u))
  {
    hide Audience, AddAll;
    var excluded := if winner.Some? then {winner.value} else {};
    recipients := FindAuctionAudience(lot.bids, lot.watchers, excluded);
    OneMore(recipients, lot.row.sellerId, excluded);
    if lot.row.sellerId !in excluded && lot.row.sellerId !in recipients {
      recipients := recipients + [lot.row.sellerId];
    }
  }

  /** The columns the guarded update writes. */
  function Updated(row: Auction, amount: Satang, extension: ExtensionDecision): Auction {
    var bumped := row.(currentPrice := amount, bidCount := row.bidCount + 1, rowVersion := row.rowVersion + 1);
    if extension.Extension?
    then bumped.(currentEndAt := Some(extension.newEndAt), extensionCount := row.extensionCount + 1)
    else bumped
  }

  /** The bid, its event, the extension it caused and the notice to whoever it displaced. */
  method InsertRows(ghost original: Lot, lot: Lot, attempt: Attempt, snapshot: Auction, extension: ExtensionDecision,
      previousLeader: Option<nat>)
    returns (after: Lot)
    requires lot == original.(row := Updated(original.row, attempt.amount, extension))
    requires previousLeader == Leader(original.bids)
    ensures after == WithBid(original, attempt, snapshot, extension)
  {
    hide Leader;
    var bidId := |lot.bids|;
    var bid := Bid(attempt.bidderId, attempt.amount, snapshot.bidCount + 1, attempt.requestId, attempt.now);
    after := lot.(bids := lot.bids + [bid],
        events := lot.events + [Event(EvBidPlaced, Some(attempt.bidderId), Some(bidId))]);
    if extension.Extension? {
      after := after.(
        extensions := after.extensions
            + [ExtensionRow(bidId, extension.extensionNumber, extension.previousEndAt, extension.newEndAt)],
        events := after.events + [Event(EvExtended, Some(attempt.bidderId), Some(bidId))]);
    }
    if previousLeader.Some? && lot.bids[previousLeader.value].bidderId != attempt.bidderId {
      var outbid := Notice(OUTBID, lot.bids[previousLeader.value].bidderId, Some(bidId), Some(attempt.amount));
      after := after.(notices := after.notices + [outbid]);
    }
  }

  class Database {
    var lots: map<AuctionId, Lot>
    var requests: map<RequestId, BidRef>
    var categories: map<CategoryId, bool>

    function State(): Db
      reads this
    {
      Db(lots, requests, categories)
    }

    ghost predicate Valid()
      reads this
    {
      DbInv(State())
    }

    constructor ()
      ensures State() == EMPTY.db && Valid()
    {
      lots, requests, categories := map[], map[], map[];
    }

    method CreateDraft(id: AuctionId, sellerId: UserId, terms: Terms, imageCount: nat) returns (ok: bool)
      requires Valid()
      modifies this
      ensures State() == WithDraft(old(State()), id, sellerId, terms, imageCount)
      ensures Valid() && DbEvolves(old(State()), State())
      ensures ok ==> id in lots && lots[id].row.status == DRAFT && lots[id].row.sellerId == sellerId
    {
      hide DbInv, DbEvolves;
      WithDraftKeeps(State(), id, sellerId, terms, imageCount);
      if terms.categoryId !in categories || !categories[terms.categoryId] || id in lots {
        assert id in lots || !CategoryUsable(Set(terms.categoryId), categories);
        return false;
      }
      assert CategoryUsable(Set(terms.categoryId), categories);
      lots := lots[id := Drafted(sellerId, terms, imageCount)];
      ok := true;
    }

    method PublishDraft(id: AuctionId, sellerId: UserId, now: Millis) returns (ok: bool)
      requires Valid()
      modifies this
      ensures State() == WithOp(old(State()), id, Publish(sellerId, now))
      ensures Valid() && DbEvolves(old(State()), State())
      ensures ok <==> id in old(lots) && OpStep(old(lots)[id], Publish(sellerId, now), old(categories)).Ok?
    {
      hide DbInv, DbEvolves, Publishable;
      WithOpKeeps(State(), id, Publish(sellerId, now));
      if id !in lots || lots[id].row.sellerId != sellerId || lots[id].row.status != DRAFT { return false; }
      var draft := lots[id];
      var issues := ValidateDraftForPublish(GateView(draft.row.terms, draft.images, categories), now);
      if issues != [] { return false; }
      PublishableMeans(draft.row.terms, draft.images, categories, now);
      var startsImmediately := draft.row.terms.scheduledStartAt.value <= now;
      var row := draft.row.(
        status := if startsImmediately then ACTIVE else SCHEDULED,
        publishedAt := Some(now), startedAt := if startsImmediately then Some(now) else None,
        rowVersion := draft.row.rowVersion + 1);
      var events := draft.events + [Event(EvPublished, Some(sellerId), None)];
      if startsImmediately {
        events := events + [Event(EvStarted, Some(sellerId), None)];
      }
      lots := lots[id := draft.(row := row, events := events)];
      assert events == draft.events + [Event(EvPublished, Some(sellerId), None)]
                       + if startsImmediately then [Event(EvStarted, Some(sellerId), None)] else [];
      ok := true;
    }

    /** An edit of a scheduled auction is written, checked against the gate and taken back if it fails. */
    method UpdateOwnAuction(id: AuctionId, sellerId: UserId, patch: Patch, now: Millis) returns (ok: bool)
      requires Valid()
      modifies this
      ensures State() == WithOp(old(State()), id, Edit(sellerId, patch, now))
      ensures Valid() && DbEvolves(old(State()), State())
      ensures ok <==> id in old(lots) && OpStep(old(lots)[id], Edit(sellerId, patch, now), old(categories)).Ok?
    {
      hide DbInv, DbEvolves, Publishable;
      WithOpKeeps(State(), id, Edit(sellerId, patch, now));
      if patch.categoryId.Set?
          && (patch.categoryId.value !in categories || !categories[patch.categoryId.value]) { return false; }
      if id !in lots || lots[id].row.sellerId != sellerId { return false; }
      var existing := lots[id];
      if !SellerChangeable(existing.row.status) || existing.row.bidCount > 0 { return false; }
      var before := lots;
      lots := lots[id := existing.(row := existing.row.(
        terms := PatchTerms(existing.row.terms, patch),
        currentEndAt := Apply(patch.scheduledEndAt, existing.row.currentEndAt),
        rowVersion := existing.row.rowVersion + 1))];
      if patch.images.Set? {
        lots := lots[id := lots[id].(images := FreshImages(patch.images.value))];
      }
      if existing.row.status == SCHEDULED {
        var issues := ValidateDraftForPublish(GateView(lots[id].row.terms, lots[id].images, categories), now);
        if issues != [] {
          lots := before;
          return false;
        }
      }
      ok := true;
    }

    method CancelOwnAuction(id: AuctionId, sellerId: UserId, now: Millis) returns (ok: bool)
      requires Valid()
      modifies this
      ensures State() == WithOp(old(State()), id, CancelOwn(sellerId, now))
      ensures Valid() && DbEvolves(old(State()), State())
      ensures ok <==> id in old(lots) && OpStep(old(lots)[id], CancelOwn(sellerId, now), old(categories)).Ok?
    {
      hide DbInv, DbEvolves;
      WithOpKeeps(State(), id, CancelOwn(sellerId, now));
      if id !in lots || lots[id].row.sellerId != sellerId { return false; }
      var existing := lots[id];
      if !SellerChangeable(existing.row.status) || existing.row.bidCount > 0 { return false; }
      lots := lots[id := existing.(row := existing.row.(status := CANCELLED, endedAt := Some(now),
                                                        rowVersion := existing.row.rowVersion + 1))];
      lots := lots[id := lots[id].(events := lots[id].events + [Event(EvCancelled, Some(sellerId), None)])];
      var audience := FindAuctionAudience(lots[id].bids, lots[id].watchers, {sellerId});
      lots := lots[id := lots[id].(notices := lots[id].notices + NoticesTo(audience, AUCTION_CANCELLED, None))];
      ok := true;
    }

    method CancelByAdmin(id: AuctionId, adminId: UserId, now: Millis) returns (ok: bool)
      requires Valid()
      modifies this
      ensures State() == WithOp(old(State()), id, Op.CancelByAdmin(adminId, now))
      ensures Valid() && DbEvolves(old(State()), State())
      ensures ok <==> id in old(lots) && OpStep(old(lots)[id], Op.CancelByAdmin(adminId, now), old(categories)).Ok?
    {
      hide DbInv, DbEvolves, AddAll, Audience, NoticesTo;
      WithOpKeeps(State(), id, Op.CancelByAdmin(adminId, now));
      if id !in lots || !AdminCancellable(lots[id].row.status) { return false; }
      var existing := lots[id];
      lots := lots[id := existing.(row := existing.row.(status := CANCELLED, endedAt := Some(now),
                                                        rowVersion := existing.row.rowVersion + 1))];
      lots := lots[id := lots[id].(events := lots[id].events + [Event(EvCancelled, Some(adminId), None)])];
      var recipients := FindAuctionAudience(lots[id].bids, lots[id].watchers, {adminId});
      OneMore(recipients, existing.row.sellerId, {adminId});
      if existing.row.sellerId != adminId && existing.row.sellerId !in recipients {
        recipients := recipients + [existing.row.sellerId];
      }
      lots := lots[id := lots[id].(notices := lots[id].notices + NoticesTo(recipients, AUCTION_CANCELLED, None))];
      ok := true;
    }

    method AddDraftImage(id: AuctionId, sellerId: UserId) returns (ok: bool)
      requires Valid()
      modifies this
      ensures State() == WithOp(old(State()), id, AddImage(sellerId))
      ensures Valid() && DbEvolves(old(State()), State())
      ensures ok <==> id in old(lots) && OpStep(old(lots)[id], AddImage(sellerId), old(categories)).Ok?
    {
      hide DbInv, DbEvolves;
      WithOpKeeps(State(), id, AddImage(sellerId));
      if id !in lots || lots[id].row.sellerId != sellerId || lots[id].row.status != DRAFT { return false; }
      var current := lots[id];
      if |current.images| >= MAX_AUCTION_IMAGES { return false; }
      var position := if current.images == [] then 0 else current.images[|current.images| - 1].position + 1;
      lots := lots[id := current.(images := current.images + [Image(position, current.images == [])])];
      lots := lots[id := lots[id].(row := lots[id].row.(rowVersion := lots[id].row.rowVersion + 1))];
      ok := true;
    }

    method RemoveDraftImage(id: AuctionId, sellerId: UserId, position: nat) returns (ok: bool)
      requires Valid()
      modifies this
      ensures State() == WithOp(old(State()), id, RemoveImage(sellerId, position))
      ensures Valid() && DbEvolves(old(State()), State())
      ensures ok <==> id in old(lots) && OpStep(old(lots)[id], RemoveImage(sellerId, position), old(categories)).Ok?
    {
      hide DbInv, DbEvolves;
      WithOpKeeps(State(), id, RemoveImage(sellerId, position));
      if id !in lots || lots[id].row.sellerId != sellerId || lots[id].row.status != DRAFT { return false; }
      var current := lots[id];
      var k := FindImage(current.images, position);
      if k.None? { return false; }
      var images := current.images[..k.value] + current.images[k.value + 1..];
      if current.images[k.value].isPrimary && images != [] {
        images := images[0 := images[0].(isPrimary := true)];
      }
      lots := lots[id := current.(images := images, row := current.row.(rowVersion := current.row.rowVersion + 1))];
      ok := true;
    }

    /** The guarded write of the timer for one auction. */
    method StartOne(id: AuctionId, now: Millis) returns (started: bool)
      requires Valid()
      modifies this
      ensures State() == WithOp(old(State()), id, Start(now))
      ensures Valid() && DbEvolves(old(State()), State())
      ensures started <==> id in old(lots) && OpStep(old(lots)[id], Start(now), old(categories)).Ok?
    {
      hide DbInv, DbEvolves;
      WithOpKeeps(State(), id, Start(now));
      if id !in lots || lots[id].row.status != SCHEDULED || lots[id].row.terms.scheduledStartAt.None?
         || lots[id].row.terms.scheduledStartAt.value > now { return false; }
      lots := lots[id := lots[id].(row := lots[id].row.(status := ACTIVE, startedAt := Some(now),
                                                        rowVersion := lots[id].row.rowVersion + 1))];
      lots := lots[id := lots[id].(events := lots[id].events + [Event(EvStarted, None, None)])];
      started := true;
    }

    /** Decides how an auction ends and writes the result, the event and everybody's notice. */
    method SettleInTransaction(id: AuctionId, now: Millis) returns (settled: bool)
      requires Valid()
      modifies this
      ensures State() == WithOp(old(State()), id, Settle(now))
      ensures Valid() && DbEvolves(old(State()), State())
      ensures settled <==> id in old(lots) && old(lots)[id].row.status == ACTIVE
                           && old(lots)[id].row.currentEndAt.Some? && old(lots)[id].row.currentEndAt.value <= now
      ensures settled ==>
          var before := old(lots)[id];
          && id in lots
          && lots[id].row.status == if before.bids != []
                 && (before.row.terms.reservePrice.None?
                     || before.bids[|before.bids| - 1].amount >= before.row.terms.reservePrice.value)
               then SOLD else UNSOLD
    {
      hide DbInv, DbEvolves, Leader, EndedRecipients, LotInv, Ledger;
      if id in lots {
        LedgerOf(State(), id);
        SettledExactlyWhen(lots[id], now);
      }
      WithOpKeeps(State(), id, Settle(now));
      if id !in lots || lots[id].row.status != ACTIVE || lots[id].row.currentEndAt.None?
         || lots[id].row.currentEndAt.value > now { return false; }
      var auction := lots[id];
      var highest := Leader(auction.bids);
      var sold := highest.Some?
          && CalculateReserveMet(auction.bids[highest.value].amount, auction.row.terms.reservePrice);
      var price := if highest.Some? then Some(auction.bids[highest.value].amount) else None;
      var winner := if sold then Some(auction.bids[highest.value].bidderId) else None;
      lots := lots[id := auction.(row := auction.row.(
        status := if sold then SOLD else UNSOLD, endedAt := Some(now),
        winnerUserId := winner, winningBid := if sold then highest else None,
        soldPrice := if sold then price else None, rowVersion := auction.row.rowVersion + 1))];
      lots := lots[id := lots[id].(events := lots[id].events + [Event(EvEnded, None, highest)])];
      var recipients := EndedAudience(auction, winner);
      var notices := if sold then [Notice(AUCTION_WON, winner.value, highest, price)] else [];
      lots := lots[id := lots[id].(notices := lots[id].notices + notices
          + NoticesTo(recipients, AUCTION_ENDED, price))];
      settled := true;
    }

    // ---- Placing a bid ----

    /** The look-up by request id, and what it answers. */
    method FindExisting(attempt: Attempt, otherwise: Phase) returns (phase: Phase)
      requires Valid()
      ensures phase == LookUp(State(), attempt, otherwise)
    {
      if attempt.requestId !in requests { return otherwise; }
      var ref := requests[attempt.requestId];
      hide DbInv;
      IndexBacked(State(), attempt.requestId);
      if ref.auctionId != attempt.auctionId { return Answered(Refused(RequestUsedElsewhere)); }
      if lots[ref.auctionId].bids[ref.index].amount != attempt.amount {
        return Answered(Refused(RequestUsedForOtherAmount));
      }
      return Answered(Replayed(ref));
    }

    /** The guarded update, then the rows behind it; a unique index that says no takes all of it back. */
    method CommitBid(attempt: Attempt) returns (phase: Phase)
      requires Valid() && AttemptInv(State(), attempt) && attempt.phase.Judged?
      modifies this
      ensures (State(), phase) == Advance(old(State()), attempt)
      ensures Valid() && DbEvolves(old(State()), State())
      ensures AttemptInv(State(), attempt.(phase := phase))
    {
      hide DbInv, DbEvolves, AttemptInv, Leader, WithBid;
      AdvanceKeeps(State(), attempt);
      var id, snapshot, extension := attempt.auctionId, attempt.phase.snapshot, attempt.phase.extension;
      if id !in lots || !GuardMatches(lots[id].row, snapshot, attempt.now) { return LostRace; }
      var before, lot := lots, lots[id];
      lot := lot.(row := Updated(lot.row, attempt.amount, extension));
      lots := lots[id := lot];
      var previousLeader := Leader(lot.bids);
      var bidId := |lot.bids|;
      if attempt.requestId in requests {
        lots := before;
        return Violated;
      }
      if SequenceTaken(lot.bids, snapshot.bidCount + 1)
         || (extension.Extension? && ExtensionNumberTaken(lot.extensions, extension.extensionNumber)) {
        lots := before;
        return Answered(Refused(UnexpectedViolation));
      }
      lot := InsertRows(before[id], lot, attempt, snapshot, extension, previousLeader);
      lots := lots[id := lot];
      requests := requests[attempt.requestId := BidRef(id, bidId)];
      phase := Answered(Recorded(BidRef(id, bidId)));
      assert State() == Advance(old(State()), attempt).0;
    }

    /**
     * placeBid with nobody else at work: it answers, it writes only what it
     * records, and it is never told that somebody bid first.
     */
    method PlaceBid(auctionId: AuctionId, bidderId: UserId, amount: Satang, requestId: RequestId, now: Millis)
        returns (answer: Answer)
      requires Valid()
      modifies this
      ensures Valid() && DbEvolves(old(State()), State())
      ensures !answer.Recorded? ==> State() == old(State())
      ensures answer.Refused? ==>
          answer.why != SomebodyBidFirst && answer.why != Unconfirmed && answer.why != UnexpectedViolation
      ensures requestId in old(requests) ==>
          var ref := old(requests)[requestId];
          && ref.auctionId in old(lots) && ref.index < |old(lots)[ref.auctionId].bids|
          && var same := ref.auctionId == auctionId && old(lots)[ref.auctionId].bids[ref.index].amount == amount;
          && (answer == Replayed(ref) <==> same)
          && (answer == Refused(RequestUsedElsewhere) <==> ref.auctionId != auctionId)
          && (answer == Refused(RequestUsedForOtherAmount) <==> ref.auctionId == auctionId && !same)
      ensures requestId !in old(requests) ==>
          && (answer == Refused(UnknownAuction) <==> auctionId !in old(lots))
          && (auctionId in old(lots) ==>
                var lot := old(lots)[auctionId];
                var running := lot.row.status == ACTIVE && lot.row.currentEndAt.Some?
                               && now < lot.row.currentEndAt.value;
                var least := if lot.bids == [] then lot.row.terms.startingPrice
                             else lot.bids[|lot.bids| - 1].amount + lot.row.terms.minBidIncrement;
                && (answer == Refused(NotOpen) <==> lot.row.status != ACTIVE)
                && (answer == Refused(HasEnded) <==> lot.row.status == ACTIVE && !running)
                && (answer == Refused(OwnAuction) <==> running && bidderId == lot.row.sellerId)
                && (answer == Refused(BelowMinimum(least)) <==>
                      (running && bidderId != lot.row.sellerId && amount < least))
                && (answer.Recorded? <==> running && bidderId != lot.row.sellerId && amount >= least)
                && (answer.Recorded? ==>
                      && answer.bid == BidRef(auctionId, |lot.bids|)
                      && auctionId in lots
                      && lots[auctionId].bids == lot.bids + [Bid(bidderId, amount, |lot.bids| + 1, requestId, now)]))
    {
      hide DbInv, DbEvolves, BidAt, Judge, Advance, ReplayOrRefuse;
      SameDbEvolves(State());
      var attempt := Attempt(auctionId, bidderId, amount, requestId, now, Fresh);
      if requestId in requests { ReplayedExactlyWhen(State(), attempt, LookedUp); }
      if auctionId in lots { LedgerOf(State(), auctionId); }
      JudgedExactlyWhen(State(), attempt.(phase := LookedUp));
      hide LotInv, Ledger;
      var phase := FindExisting(attempt, LookedUp);
      if phase.Answered? { return phase.answer; }
      attempt := attempt.(phase := LookedUp);
      phase := Judge(State(), attempt);
      if phase.Answered? { return phase.answer; }
      JudgeKeeps(State(), attempt);
      attempt := attempt.(phase := phase);
      QuietDatabaseCommits(State(), attempt);
      QuietDatabaseRecords(State(), attempt);
      phase := CommitBid(attempt);
      answer := phase.answer;
    }
  }

  lemma {:induction false} IndexBacked(db: Db, requestId: RequestId)
    requires DbInv(db) && requestId in db.requests
    ensures BidAt(db, db.requests[requestId]).Some?
  {
    hide LotInv;
  }

  lemma {:induction false} OneMore(audience: seq<UserId>, user: UserId, excluded: set<UserId>)
    ensures AddAll(audience, [user], excluded) == if user in excluded || user in audience then audience
        else audience + [user]
  {
    assert [user][..0] == [];
    assert AddAll(audience, [], excluded) == audience;
  }

  /** And then the bid is the next row of its auction. */
  lemma {:induction false} QuietDatabaseRecords(db: Db, attempt: Attempt)
    requires DbInv(db) && AttemptInv(db, attempt) && attempt.phase.Judged?
    requires db.lots[attempt.auctionId].row == attempt.phase.snapshot && attempt.requestId !in db.requests
    ensures
      var lot := db.lots[attempt.auctionId];
      var (after, phase) := Advance(db, attempt);
      && phase == Answered(Recorded(BidRef(attempt.auctionId, |lot.bids|)))
      && attempt.auctionId in after.lots
      && after.lots[attempt.auctionId].bids ==
           lot.bids + [Bid(attempt.bidderId, attempt.amount, |lot.bids| + 1, attempt.requestId, attempt.now)]
  {
    hide LotInv, IndexFaithful, WithBid, CalculateAntiSniping, CalculateMinimumBid;
    QuietDatabaseCommits(db, attempt);
    LedgerOf(db, attempt.auctionId);
    assert |db.lots[attempt.auctionId].bids| == db.lots[attempt.auctionId].row.bidCount;
    CommitDecides(db, attempt);
    hide Ledger;
  }

  /** Nothing changed since it was judged, so the guard matches and no index is violated. */
  lemma {:induction false} QuietDatabaseCommits(db: Db, attempt: Attempt)
    requires DbInv(db) && AttemptInv(db, attempt) && attempt.phase.Judged?
    requires db.lots[attempt.auctionId].row == attempt.phase.snapshot && attempt.requestId !in db.requests
    ensures Advance(db, attempt).1.Answered? && Advance(db, attempt).1.answer.Recorded?
  {
    hide LotInv, IndexFaithful, WithBid, CalculateAntiSniping, CalculateMinimumBid;
    if !Writes(db, attempt) {
      LosingCommit(db, attempt);
    }
  }
}
