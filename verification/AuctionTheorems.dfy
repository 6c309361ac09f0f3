/** What the marketplace promises about an auction, in every state it can reach. */
module AuctionTheorems {
  import opened Wrappers
  import opened AuctionRules
  import opened AuctionSteps
  import opened AuctionInvariant
  import opened AuctionRuns
  import opened AuctionAnswers

  ghost predicate Reachable(s: System) {
    exists actions :: s == Run(EMPTY, actions)
  }

  lemma {:induction false} ReachableIsGood(s: System)
    requires Reachable(s)
    ensures Inv(s)
  {
    hide Inv, Run;
    var actions :| s == Run(EMPTY, actions);
    ReachableInv(actions);
  }

  lemma {:induction false} GoodLot(s: System, id: AuctionId)
    requires Reachable(s) && id in s.db.lots
    ensures LotInv(s.db.lots[id])
  {
    hide Reachable, LotInv, AttemptInv, IndexFaithful, RecordedApart;
    ReachableIsGood(s);
  }

  lemma {:induction false} GoodAttempt(s: System, id: AttemptId)
    requires Reachable(s) && id in s.attempts
    ensures DbInv(s.db) && AttemptInv(s.db, s.attempts[id])
  {
    hide Reachable, DbInv, AttemptInv, RecordedApart;
    ReachableIsGood(s);
  }

  // ---- Optimistic concurrency ----

  /**
   * A judged attempt records its bid exactly when the row is still the version
   * it judged and its request id is still free; the row is then the very row
   * it judged, so the bid clears the minimum of the row it replaces.
   */
  lemma {:induction false} BidClearsTheRowItReplaces(s: System, id: AttemptId)
    requires Reachable(s) && id in s.attempts && s.attempts[id].phase.Judged?
    ensures ClearsTheRowItReplaces(s.db, s.attempts[id], Next(s, AdvanceBid(id)).db)
  {
    hide Reachable, DbInv, AttemptInv, Advance, ClearsTheRowItReplaces;
    GoodAttempt(s, id);
    CommitDecides(s.db, s.attempts[id]);
  }

  ghost predicate ClearsTheRowItReplaces(db: Db, attempt: Attempt, after: Db)
    requires attempt.phase.Judged?
  {
    && attempt.auctionId in db.lots
    && var lot := db.lots[attempt.auctionId];
    && (lot.row.rowVersion != attempt.phase.snapshot.rowVersion || attempt.requestId in db.requests ==> after == db)
    && (lot.row.rowVersion == attempt.phase.snapshot.rowVersion && attempt.requestId !in db.requests ==>
          && lot.row == attempt.phase.snapshot
          && lot.row.status == ACTIVE
          && (lot.bids == [] ==> attempt.amount >= lot.row.terms.startingPrice)
          && (lot.bids != [] ==>
                attempt.amount >= lot.bids[|lot.bids| - 1].amount + lot.row.terms.minBidIncrement)
          && attempt.bidderId != lot.row.sellerId
          && lot.row.currentEndAt.Some? && attempt.now < lot.row.currentEndAt.value
          && attempt.auctionId in after.lots
              && after.lots == db.lots[attempt.auctionId := after.lots[attempt.auctionId]]
          && var now := after.lots[attempt.auctionId];
          && now.bids ==
               lot.bids + [Bid(attempt.bidderId, attempt.amount, lot.row.bidCount + 1, attempt.requestId, attempt.now)]
          && now.row.currentPrice == attempt.amount && now.row.bidCount == lot.row.bidCount + 1
          && now.row.terms == lot.row.terms && now.row.status == ACTIVE)
  }

  lemma {:induction false} CommitDecides(db: Db, attempt: Attempt)
    requires DbInv(db) && AttemptInv(db, attempt) && attempt.phase.Judged?
    ensures ClearsTheRowItReplaces(db, attempt, Advance(db, attempt).0)
  {
    hide LotInv, IndexFaithful, WithBid, CalculateAntiSniping, CalculateMinimumBid;
    if Writes(db, attempt) {
      GuardMeansSnapshot(db, attempt);
      LedgerOf(db, attempt.auctionId);
      MinimumIs(db.lots[attempt.auctionId]);
      CommitShape(db, attempt);
      WithBidRow(db.lots[attempt.auctionId], attempt, attempt.phase.snapshot, attempt.phase.extension);
      WithBidAppends(db.lots[attempt.auctionId], attempt, attempt.phase.snapshot, attempt.phase.extension);
    } else {
      LosingCommit(db, attempt);
    }
  }

  lemma {:induction false} LedgerOf(db: Db, id: AuctionId)
    requires DbInv(db) && id in db.lots
    ensures LotInv(db.lots[id]) && Ledger(db.lots[id].row, db.lots[id].bids)
  {
    hide IndexFaithful, Ledger, Deadline, LogAgrees, Outcome, Gate, Gallery, Told, Distinct;
  }

  /**
   * In every state the marketplace reaches, a bid under a fresh request id gets
   * past its judgement exactly when the auction is there and running, the bidder
   * is not its seller, and the amount is the starting price or more, or, after
   * a bid, an increment above the last one or more; and each refusal says which
   * of these failed, in this order, and the least amount that would do.
   */
  lemma {:induction false} BidIsAcceptedExactlyWhen(s: System, attempt: Attempt)
    requires Reachable(s)
    ensures attempt.auctionId !in s.db.lots <==> Judge(s.db, attempt) == Answered(Refused(UnknownAuction))
    ensures attempt.auctionId in s.db.lots ==>
              var lot := s.db.lots[attempt.auctionId];
              var phase := Judge(s.db, attempt);
              var running := lot.row.status == ACTIVE && lot.row.currentEndAt.Some?
                             && attempt.now < lot.row.currentEndAt.value;
              var least := if lot.bids == [] then lot.row.terms.startingPrice
                           else lot.bids[|lot.bids| - 1].amount + lot.row.terms.minBidIncrement;
              && (phase == Answered(Refused(NotOpen)) <==> lot.row.status != ACTIVE)
              && (phase == Answered(Refused(HasEnded)) <==> lot.row.status == ACTIVE && !running)
              && (phase == Answered(Refused(OwnAuction)) <==> running && attempt.bidderId == lot.row.sellerId)
              && (phase == Answered(Refused(BelowMinimum(least))) <==>
                    (running && attempt.bidderId != lot.row.sellerId && attempt.amount < least))
              && (phase.Judged? <==> running && attempt.bidderId != lot.row.sellerId && attempt.amount >= least)
  {
    hide Reachable, DbInv, LotInv, Ledger, Judge;
    if attempt.auctionId in s.db.lots { GoodLot(s, attempt.auctionId); }
    JudgedExactlyWhen(s.db, attempt);
  }

  lemma {:induction false} WithBidRow(lot: Lot, attempt: Attempt, snapshot: Auction, extension: ExtensionDecision)
    ensures
      var row := WithBid(lot, attempt, snapshot, extension).row;
      row.currentPrice == attempt.amount && row.bidCount == lot.row.bidCount + 1
      && row.terms == lot.row.terms && row.status == lot.row.status
  {
    hide Leader;
  }

  // ---- The ledger ----

  /** Numbers run 1..bidCount, amounts climb by the increment, the price is the last amount, the last bid leads. */
  lemma {:induction false} LedgerHolds(s: System, id: AuctionId)
    requires Reachable(s) && id in s.db.lots
    ensures
      var lot := s.db.lots[id];
      && |lot.bids| == lot.row.bidCount
      && (forall i | 0 <= i < |lot.bids| :: lot.bids[i].sequenceNo == i + 1)
      && lot.row.currentPrice == (if lot.bids == [] then 0 else lot.bids[|lot.bids| - 1].amount)
      && (lot.bids != [] ==> lot.bids[0].amount >= lot.row.terms.startingPrice)
      && (forall i, j | 0 <= i < j < |lot.bids| ::
            lot.bids[j].amount >= lot.bids[i].amount + lot.row.terms.minBidIncrement && Beats(lot.bids[j], lot.bids[i]))
      && Leader(lot.bids) == (if lot.bids == [] then None else Some(|lot.bids| - 1))
  {
    hide Reachable, Deadline, LogAgrees, Outcome, Gate, Gallery, Told, Distinct, Leader;
    GoodLot(s, id);
    LeaderIsLastBid(s.db.lots[id].row, s.db.lots[id].bids);
  }

  // ---- Retries ----

  /** A request id is on record at most once, over all auctions. */
  lemma {:induction false} RequestRecordedOnce(s: System, a: AuctionId, i: nat, b: AuctionId, j: nat)
    requires Reachable(s) && a in s.db.lots && b in s.db.lots
    requires i < |s.db.lots[a].bids| && j < |s.db.lots[b].bids|
    requires s.db.lots[a].bids[i].requestId == s.db.lots[b].bids[j].requestId
    ensures a == b && i == j
  {
    ReachableIsGood(s);
    hide LotInv, Reachable, AttemptInv;
    assert s.db.requests[s.db.lots[a].bids[i].requestId] == BidRef(a, i);
  }

  /** Any two callers who were given a bid for the same request id were given the same bid, and only one placed it. */
  lemma {:induction false} SameRequestSameBid(s: System, x: AttemptId, y: AttemptId)
    requires Reachable(s) && x in s.attempts && y in s.attempts
    requires s.attempts[x].requestId == s.attempts[y].requestId
    requires s.attempts[x].phase.Answered? && !s.attempts[x].phase.answer.Refused?
    requires s.attempts[y].phase.Answered? && !s.attempts[y].phase.answer.Refused?
    ensures s.attempts[x].phase.answer.bid == s.attempts[y].phase.answer.bid
    ensures s.attempts[x].auctionId == s.attempts[y].auctionId && s.attempts[x].amount == s.attempts[y].amount
    ensures s.attempts[x].phase.answer.Recorded? && s.attempts[y].phase.answer.Recorded? ==> x == y
    ensures
      var bid := BidAt(s.db, s.attempts[x].phase.answer.bid);
      bid.Some? && bid.value.requestId == s.attempts[x].requestId && bid.value.amount == s.attempts[x].amount
  {
    ReachableIsGood(s);
    hide LotInv, Reachable;
    assert AttemptInv(s.db, s.attempts[x]) && AttemptInv(s.db, s.attempts[y]);
  }

  /**
   * A step that does not record a bid writes nothing, and the two answers that would mean a broken
   * index never come.
   */
  lemma {:induction false} OnlyRecordingWrites(s: System, id: AttemptId)
    requires Reachable(s) && id in s.attempts
    ensures
      var after := Next(s, AdvanceBid(id));
      var was, now := s.attempts[id].phase, after.attempts[id].phase;
      && (after.db != s.db ==> !was.Answered? && now.Answered? && now.answer.Recorded?)
      && (now.Answered? && now.answer.Refused? ==>
          now.answer.why != Unconfirmed && now.answer.why != UnexpectedViolation)
  {
    hide DbInv, DbEvolves, Reachable, Advance, Commit, BidAt;
    GoodAttempt(s, id);
    AdvanceKeeps(s.db, s.attempts[id]);
    if Writes(s.db, s.attempts[id]) {
      CommitShape(s.db, s.attempts[id]);
    }
    var attempt := s.attempts[id];
    var answered := attempt.(phase := Advance(s.db, attempt).1);
    assert Next(s, AdvanceBid(id)).attempts[id] == answered;
    FailuresNeverCome(Advance(s.db, attempt).0, answered);
  }

  lemma {:induction false} FailuresNeverCome(db: Db, attempt: Attempt)
    requires AttemptInv(db, attempt)
    ensures attempt.phase.Answered? && attempt.phase.answer.Refused? ==>
              attempt.phase.answer.why != Unconfirmed && attempt.phase.answer.why != UnexpectedViolation
  {
  }

  /** How many more steps of its own an attempt can take before it has its answer. */
  function StepsLeft(phase: Phase): nat {
    match phase
    case Fresh => 4
    case LookedUp => 3
    case Judged(_, _) => 2
    case LostRace => 1
    case Violated => 1
    case Answered(_) => 0
  }

  function Advances(actions: seq<Action>, id: AttemptId): nat {
    if actions == [] then 0
    else Advances(actions[..|actions| - 1], id) + if actions[|actions| - 1] == AdvanceBid(id) then 1 else 0
  }

  /** Whatever everybody else does meanwhile, four steps of its own answer an attempt, and the answer is final. */
  lemma {:induction false} FourStepsAnswer(s: System, id: AttemptId, actions: seq<Action>)
    requires id in s.attempts
    ensures id in Run(s, actions).attempts
    ensures StepsLeft(Run(s, actions).attempts[id].phase) + Advances(actions, id) <= StepsLeft(s.attempts[id].phase)
            || Run(s, actions).attempts[id].phase.Answered?
    ensures Advances(actions, id) >= 4 ==> Run(s, actions).attempts[id].phase.Answered?
    ensures s.attempts[id].phase.Answered? ==> Run(s, actions).attempts[id] == s.attempts[id]
    decreases |actions|
  {
    hide WithOp, WithDraft, WithBid;
    if actions != [] {
      FourStepsAnswer(s, id, actions[..|actions| - 1]);
    }
  }

  // ---- Settlement ----

  /**
   * Settling happens only after the current end, sells exactly when there is a
   * bid and the last one reaches the reserve, names the leader the arena showed,
   * and is final: nothing later settles again or changes the row.
   */
  lemma {:induction false} SettlementIsRightAndFinal(s: System, id: AuctionId, now: Millis, more: seq<Action>,
      again: Millis)
    requires Reachable(s) && id in s.db.lots && OpStep(s.db.lots[id], Settle(now), s.db.categories).Ok?
    ensures
      var before := s.db.lots[id];
      var row := WithOp(s.db, id, Settle(now)).lots[id].row;
      && before.row.status == ACTIVE && before.row.currentEndAt.Some? && before.row.currentEndAt.value <= now
      && (row.status == SOLD <==>
            before.bids != [] && (before.row.terms.reservePrice.None?
                                  || before.bids[|before.bids| - 1].amount >= before.row.terms.reservePrice.value))
      && (row.status == SOLD || row.status == UNSOLD)
      && (row.status == SOLD ==>
            && row.winningBid == Leader(before.bids) == Some(before.row.bidCount - 1)
            && row.winnerUserId == Some(before.bids[before.row.bidCount - 1].bidderId)
            && row.soldPrice == Some(before.row.currentPrice))
    ensures
      var later := Run(Next(s, OnAuction(id, Settle(now))), more);
      && id in later.db.lots
      && later.db.lots[id].row == WithOp(s.db, id, Settle(now)).lots[id].row
      && later.db.lots[id].bids == s.db.lots[id].bids
      && OpStep(later.db.lots[id], Settle(again), later.db.categories).Err?
  {
    hide Reachable, LotInv, Inv, Run, SettledWith, Leader;
    GoodLot(s, id);
    ReachableIsGood(s);
    SettledRow(s.db.lots[id], now);
    NextKeeps(s, OnAuction(id, Settle(now)));
    TerminalStays(Next(s, OnAuction(id, Settle(now))), id, more, again);
  }

  lemma {:induction false} TerminalStays(s: System, id: AuctionId, more: seq<Action>, again: Millis)
    requires Inv(s) && id in s.db.lots && Terminal(s.db.lots[id].row.status)
    ensures
      var later := Run(s, more);
      && id in later.db.lots
      && later.db.lots[id].row == s.db.lots[id].row
      && later.db.lots[id].bids == s.db.lots[id].bids
      && later.db.lots[id].notices == s.db.lots[id].notices
      && OpStep(later.db.lots[id], Settle(again), later.db.categories).Err?
  {
    hide Inv, Run, SettledWith;
    RunKeeps(s, more);
    assert Evolves(s.db.lots[id], Run(s, more).db.lots[id]);
  }

  lemma {:induction false} SettledRow(before: Lot, now: Millis)
    requires LotInv(before) && SettleStep(before, now).Ok?
    ensures
      var row := SettleStep(before, now).value.row;
      && before.row.status == ACTIVE && before.row.currentEndAt.Some? && before.row.currentEndAt.value <= now
      && (row.status == SOLD <==>
            before.bids != [] && (before.row.terms.reservePrice.None?
                                  || before.bids[|before.bids| - 1].amount >= before.row.terms.reservePrice.value))
      && (row.status == SOLD || row.status == UNSOLD)
      && (row.status == SOLD ==>
            && row.winningBid == Leader(before.bids) == Some(before.row.bidCount - 1)
            && row.winnerUserId == Some(before.bids[before.row.bidCount - 1].bidderId)
            && row.soldPrice == Some(before.row.currentPrice))
      && SettleStep(before, now).value.bids == before.bids
  {
    hide Deadline, LogAgrees, Outcome, Gate, Gallery, Told, Distinct, EndedRecipients, Leader;
    LeaderIsLastBid(before.row, before.bids);
  }

  /** A terminal auction is never left: no run changes its row, its bids or its notices. */
  lemma {:induction false} TerminalIsFinal(s: System, id: AuctionId, more: seq<Action>)
    requires Reachable(s) && id in s.db.lots && Terminal(s.db.lots[id].row.status)
    ensures id in Run(s, more).db.lots
    ensures Run(s, more).db.lots[id].row == s.db.lots[id].row
    ensures Run(s, more).db.lots[id].bids == s.db.lots[id].bids
        && Run(s, more).db.lots[id].notices == s.db.lots[id].notices
  {
    hide Reachable, Inv, Run, OpStep;
    ReachableIsGood(s);
    TerminalStays(s, id, more, 0);
  }

  /** Settling goes through exactly when the auction is running and its end has come. */
  lemma {:induction false} SettlesExactlyWhen(s: System, id: AuctionId, now: Millis)
    requires Reachable(s) && id in s.db.lots
    ensures OpStep(s.db.lots[id], Settle(now), s.db.categories).Ok? <==>
              s.db.lots[id].row.status == ACTIVE && s.db.lots[id].row.currentEndAt.Some?
              && s.db.lots[id].row.currentEndAt.value <= now
  {
    hide Reachable, LotInv, LastBidSells;
    GoodLot(s, id);
    SettledExactlyWhen(s.db.lots[id], now);
  }

  /**
   * Every auction that ended was sold exactly when it had a bid and its last one
   * reached the reserve, if there was one; and that is what the public was shown.
   */
  lemma {:induction false} SoldExactlyWhen(s: System, id: AuctionId)
    requires Reachable(s) && id in s.db.lots
    ensures
      var lot := s.db.lots[id];
      var reached := lot.bids != [] && (lot.row.terms.reservePrice.None?
                                        || lot.bids[|lot.bids| - 1].amount >= lot.row.terms.reservePrice.value);
      && (lot.row.status == SOLD || lot.row.status == UNSOLD ==> (lot.row.status == SOLD <==> reached))
      && (lot.bids != [] ==> (CalculateReserveMet(lot.row.currentPrice, lot.row.terms.reservePrice) <==> reached))
      && (lot.bids == [] ==>
            (CalculateReserveMet(lot.row.currentPrice, lot.row.terms.reservePrice) <==>
               lot.row.terms.reservePrice.None? || lot.row.terms.reservePrice.value <= 0))
  {
    hide Reachable, Deadline, LogAgrees, Gallery, Told, Distinct, Gate;
    GoodLot(s, id);
    ShownReserveMet(s.db.lots[id]);
  }

  /**
   * Publishing, for every auction on record: who may, when, and that it opens at once exactly if its
   * start has come.
   */
  lemma {:induction false} PublishesExactlyWhen(s: System, id: AuctionId, sellerId: UserId, now: Millis)
    requires Reachable(s) && id in s.db.lots
    ensures
      var lot := s.db.lots[id];
      var after := WithOp(s.db, id, Publish(sellerId, now)).lots[id];
      var ready := GateHolds(lot.row.terms, lot.images) && lot.row.terms.categoryId in s.db.categories
                   && s.db.categories[lot.row.terms.categoryId] && lot.row.terms.originalEndAt.value > now;
      && (after != lot <==> lot.row.sellerId == sellerId && lot.row.status == DRAFT && ready)
      && (after != lot ==>
            && after.row.status == (if lot.row.terms.scheduledStartAt.value <= now then ACTIVE else SCHEDULED)
            && after.row.terms == lot.row.terms && after.bids == [] && after.images == lot.images
            && after.row.currentEndAt == lot.row.terms.originalEndAt)
  {
    hide Reachable, LotInv, GateHolds, PublishStep;
    GoodLot(s, id);
    if s.db.lots[id].row.status == DRAFT { DraftRow(s.db.lots[id]); }
    PublishedExactlyWhen(s.db.lots[id], sellerId, now, s.db.categories);
  }

  lemma {:induction false} DraftRow(lot: Lot)
    requires LotInv(lot) && lot.row.status == DRAFT
    ensures lot.bids == [] && lot.row.currentEndAt == lot.row.terms.originalEndAt
  {
    hide Ledger, LogAgrees, Gate, Gallery, Told, Distinct;
  }

  /** What was sold went for at least the starting price and the reserve, and a winner exists exactly when it sold. */
  lemma {:induction false} SoldPriceIsFair(s: System, id: AuctionId)
    requires Reachable(s) && id in s.db.lots
    ensures
      var row := s.db.lots[id].row;
      && (row.winnerUserId.Some? <==> row.status == SOLD)
      && (row.soldPrice.Some? <==> row.status == SOLD)
      && (row.status == SOLD ==>
            && row.winnerUserId.value != row.sellerId
            && row.soldPrice.value >= row.terms.startingPrice > 0
            && (row.terms.reservePrice.Some? ==> row.soldPrice.value >= row.terms.reservePrice.value)
            && row.endedAt.Some? && row.currentEndAt.Some? && row.endedAt.value >= row.currentEndAt.value)
  {
    hide Reachable, Deadline, LogAgrees, Gallery, Told, Distinct, Blank;
    GoodLot(s, id);
  }

  /** Whoever won is the bidder of the last bid, at that bid's amount. */
  lemma {:induction false} WinnerIsLastBidder(s: System, id: AuctionId)
    requires Reachable(s) && id in s.db.lots && s.db.lots[id].row.status == SOLD
    ensures
      var lot := s.db.lots[id];
      && lot.bids != []
      && lot.row.winnerUserId == Some(lot.bids[|lot.bids| - 1].bidderId)
      && lot.row.soldPrice == Some(lot.bids[|lot.bids| - 1].amount)
  {
    hide Reachable, Ledger, Deadline, LogAgrees, Gallery, Told, Distinct, Gate;
    GoodLot(s, id);
  }

  /** Everything public passed the gate, edits included; so did everything anybody ever bid on. */
  lemma {:induction false} PublicPassedTheGate(s: System, id: AuctionId)
    requires Reachable(s) && id in s.db.lots
    requires (s.db.lots[id].row.status != DRAFT && s.db.lots[id].row.status != CANCELLED) || s.db.lots[id].bids != []
    ensures GateHolds(s.db.lots[id].row.terms, s.db.lots[id].images)
    ensures exists i | 0 <= i < |s.db.lots[id].images| :: s.db.lots[id].images[i].isPrimary
  {
    hide Reachable, Ledger, Deadline, LogAgrees, Outcome, Told, Distinct, Blank;
    GoodLot(s, id);
    assert Gallery(s.db.lots[id].images);
  }

  // ---- The log ----

  function CountOf(events: seq<Event>, kind: EventType): nat {
    if events == [] then 0
    else CountOf(events[..|events| - 1], kind) + if events[|events| - 1].kind == kind then 1 else 0
  }

  lemma {:induction false} LogCounts(events: seq<Event>)
    requires ReadLog(events).Some?
    ensures CountOf(events, EvBidPlaced) == ReadLog(events).value.bids
    ensures CountOf(events, EvExtended) == ReadLog(events).value.extensions
    ensures CountOf(events, EvEnded) == if ReadLog(events).value.stage == Finished then 1 else 0
    decreases |events|
  {
    if events != [] {
      LogCounts(events[..|events| - 1]);
    }
  }

  /** Reading an auction's log, and nothing else, tells its status, its bids and its extensions. */
  lemma {:induction false} LogTellsTheStory(s: System, id: AuctionId)
    requires Reachable(s) && id in s.db.lots
    ensures
      var lot := s.db.lots[id];
      && ReadLog(lot.events) == Some(History(StageOf(lot.row.status), lot.row.bidCount, lot.row.extensionCount))
      && CountOf(lot.events, EvBidPlaced) == lot.row.bidCount
      && CountOf(lot.events, EvExtended) == lot.row.extensionCount
      && CountOf(lot.events, EvEnded) == (if lot.row.status == SOLD || lot.row.status == UNSOLD then 1 else 0)
  {
    hide Reachable, Ledger, Deadline, Outcome, Gate, Gallery, Told, Distinct, ReadLog, CountOf;
    GoodLot(s, id);
    LogCounts(s.db.lots[id].events);
  }

  // ---- The deadline ----

  /**
   * The deadline moved in steps of two minutes, at most five, each earned by a bid placed no earlier
   * than the deadline before last.
   */
  lemma {:induction false} DeadlineMovesInSteps(s: System, id: AuctionId)
    requires Reachable(s) && id in s.db.lots && s.db.lots[id].row.terms.originalEndAt.Some?
    ensures MovedInSteps(s.db.lots[id], s.db.lots[id].row.terms.originalEndAt.value)
  {
    hide Reachable, Ledger, Deadline, LogAgrees, Outcome, Gate, Gallery, Told, Distinct, MovedInSteps;
    GoodLot(s, id);
    DeadlineFacts(s.db.lots[id]);
  }

  ghost predicate MovedInSteps(lot: Lot, end: Millis) {
    && lot.row.currentEndAt == Some(end + 2 * 60 * 1000 * lot.row.extensionCount)
    && lot.row.extensionCount == |lot.extensions| <= 5
    && (forall i | 0 <= i < |lot.bids| :: lot.bids[i].placedAt < end + 10 * 60 * 1000)
    && (forall i | 0 <= i < |lot.extensions| ::
          && lot.extensions[i].extensionNumber == i + 1
          && lot.extensions[i].triggeredBy < |lot.bids|
          && lot.extensions[i].newEndAt == lot.extensions[i].previousEndAt + 2 * 60 * 1000)
    && (|lot.extensions| > 0 ==>
            lot.extensions[0].previousEndAt == end
                && lot.extensions[|lot.extensions| - 1].newEndAt == lot.row.currentEndAt.value)
    && (forall i, j | 0 <= i < j < |lot.extensions| && j == i + 1 ::
          && lot.extensions[j].previousEndAt == lot.extensions[i].newEndAt
          && lot.extensions[i].triggeredBy < lot.extensions[j].triggeredBy
          && lot.bids[lot.extensions[j].triggeredBy].placedAt >= lot.extensions[i].previousEndAt)
  }

  lemma {:induction false} DeadlineFacts(lot: Lot)
    requires Deadline(lot.row, lot.bids, lot.extensions) && lot.row.terms.originalEndAt.Some?
    ensures MovedInSteps(lot, lot.row.terms.originalEndAt.value)
  {
    var end := lot.row.terms.originalEndAt.value;
    forall i | 0 <= i < |lot.extensions|
      ensures ExtensionOk(end, i, lot.extensions[i], lot.bids)
    {
    }
  }

  // ---- Who is told ----

  function RowsFor(notices: seq<Notice>, kind: NoticeType, user: UserId): nat {
    if notices == [] then 0
    else
      var last := |notices| - 1;
      RowsFor(notices[..last], kind, user) + if notices[last].kind == kind && notices[last].user == user then 1 else 0
  }

  lemma {:induction false} RowsAreOfKind(notices: seq<Notice>, kind: NoticeType, user: UserId)
    ensures RowsFor(notices, kind, user) == RowsFor(OfKind(notices, kind), kind, user)
    decreases |notices|
  {
    if notices != [] {
      var last := |notices| - 1;
      RowsAreOfKind(notices[..last], kind, user);
      if notices[last].kind == kind {
        assert OfKind(notices, kind)[..|OfKind(notices, kind)| - 1] == OfKind(notices[..last], kind);
      } else {
        assert OfKind(notices, kind) == OfKind(notices[..last], kind);
      }
    }
  }

  lemma {:induction false} OneRowEach(users: seq<UserId>, rows: seq<Notice>, kind: NoticeType, user: UserId)
    requires Distinct(users) && |rows| == |users|
    requires forall i | 0 <= i < |users| :: rows[i].kind == kind && rows[i].user == users[i]
    ensures RowsFor(rows, kind, user) == if user in users then 1 else 0
    decreases |users|
  {
    if users != [] {
      var last := |users| - 1;
      OneRowEach(users[..last], rows[..last], kind, user);
      assert users == users[..last] + [users[last]];
    }
  }

  ghost predicate HasBid(lot: Lot, user: UserId) {
    exists i | 0 <= i < |lot.bids| :: lot.bids[i].bidderId == user
  }

  lemma {:induction false} EndedRecipientsAre(lot: Lot, winner: Option<UserId>, user: UserId)
    ensures Distinct(EndedRecipients(lot, winner))
    ensures user in EndedRecipients(lot, winner) <==>
            winner != Some(user) && (user == lot.row.sellerId || user in lot.watchers || HasBid(lot, user))
  {
    var excluded := if winner.Some? then {winner.value} else {};
    AudienceMembers(lot.bids, lot.watchers, excluded);
    AddAllMembers(Audience(lot.bids, lot.watchers, excluded), [lot.row.sellerId], excluded);
  }

  /**
   * Settling tells the winner once that they won, and everybody else with a
   * stake - the seller always among them - once that it ended.
   */
  lemma {:induction false} SettlementTellsEverybodyOnce(s: System, id: AuctionId, now: Millis, user: UserId)
    requires Reachable(s) && id in s.db.lots && OpStep(s.db.lots[id], Settle(now), s.db.categories).Ok?
    ensures
      var before := s.db.lots[id];
      var after := WithOp(s.db, id, Settle(now)).lots[id];
      && RowsFor(after.notices, AUCTION_WON, user) == (if after.row.winnerUserId == Some(user) then 1 else 0)
      && RowsFor(after.notices, AUCTION_ENDED, user) ==
           (if after.row.winnerUserId != Some(user)
               && (user == before.row.sellerId || user in before.watchers || HasBid(before, user))
            then 1 else 0)
      && after.row.winnerUserId != Some(before.row.sellerId)
  {
    hide Reachable, LotInv, SettledFrom, SettledWith, DueToSettle, HasBid, RowsFor;
    GoodLot(s, id);
    SettledFacts(s.db.lots[id], WithOp(s.db, id, Settle(now)).lots[id], now);
    OnceEach(s.db.lots[id], WithOp(s.db, id, Settle(now)).lots[id], user);
  }

  ghost predicate SettledFrom(before: Lot, after: Lot) {
    && OfKind(after.notices, AUCTION_WON) ==
         (if after.row.winnerUserId.Some?
             then [Notice(AUCTION_WON, after.row.winnerUserId.value, after.row.winningBid, after.row.soldPrice)]
             else [])
    && (exists price ::
        OfKind(after.notices, AUCTION_ENDED)
        == NoticesTo(EndedRecipients(before, after.row.winnerUserId), AUCTION_ENDED, price))
    && after.row.winnerUserId != Some(before.row.sellerId)
  }

  /** The notices and the winner settlement leaves, in the form the counting needs. */
  lemma {:induction false} SettledFacts(lot: Lot, after: Lot, now: Millis)
    requires LotInv(lot) && SettleStep(lot, now) == Ok(after)
    ensures SettledFrom(lot, after)
  {
    hide Ledger, Deadline, LogAgrees, Outcome, Gate, Gallery, Distinct, SettledWith, Leader, EndedRecipients, OfKind,
        OutbidRows;
    SettleTold(lot, after, now);
    SettleKeeps(lot, after, now);
    SettleShape(lot, after, now);
    WinnerIsNotSeller(after);
  }

  lemma {:induction false} WinnerIsNotSeller(lot: Lot)
    requires Ledger(lot.row, lot.bids) && Outcome(lot.row, lot.bids)
    ensures lot.row.winnerUserId != Some(lot.row.sellerId)
    ensures lot.row.winnerUserId.Some? <==> lot.row.status == SOLD
  {
  }

  lemma {:induction false} OnceEach(before: Lot, after: Lot, user: UserId)
    requires SettledFrom(before, after)
    ensures RowsFor(after.notices, AUCTION_WON, user) == (if after.row.winnerUserId == Some(user) then 1 else 0)
    ensures RowsFor(after.notices, AUCTION_ENDED, user) ==
           (if after.row.winnerUserId != Some(user)
               && (user == before.row.sellerId || user in before.watchers || HasBid(before, user))
            then 1 else 0)
    ensures after.row.winnerUserId != Some(before.row.sellerId)
  {
    hide OfKind, EndedRecipients;
    RowsAreOfKind(after.notices, AUCTION_WON, user);
    RowsAreOfKind(after.notices, AUCTION_ENDED, user);
    EndedRecipientsAre(before, after.row.winnerUserId, user);
    var price :| OfKind(after.notices, AUCTION_ENDED)
        == NoticesTo(EndedRecipients(before, after.row.winnerUserId), AUCTION_ENDED, price);
    var users := EndedRecipients(before, after.row.winnerUserId);
    OneRowEach(users, NoticesTo(users, AUCTION_ENDED, price), AUCTION_ENDED, user);
  }

  /** An admin's cancellation reaches everybody with a stake and the seller once; the admin never. */
  lemma {:induction false} AdminCancellationTells(s: System, id: AuctionId, adminId: UserId, now: Millis, user: UserId)
    requires Reachable(s) && id in s.db.lots
    requires s.db.lots[id].row.status == DRAFT || s.db.lots[id].row.status == SCHEDULED
             || s.db.lots[id].row.status == ACTIVE
    ensures
      var before := s.db.lots[id];
      var after := WithOp(s.db, id, CancelByAdmin(adminId, now)).lots[id];
      && after.row.status == CANCELLED
      && RowsFor(after.notices, AUCTION_CANCELLED, user) ==
           (if user != adminId && (user == before.row.sellerId || user in before.watchers || HasBid(before, user))
               then 1 else 0)
  {
    hide Reachable, Ledger, Deadline, LogAgrees, Outcome, Gate, Gallery, Distinct, OfKind, OutbidRows, Audience,
        AddAll, RowsFor;
    GoodLot(s, id);
    AdminRecipients(s.db.lots[id], adminId, user);
    CancelledRows(s.db.lots[id], adminId, now, AddAll(Audience(s.db.lots[id].bids, s.db.lots[id].watchers, {adminId}),
                                                       [s.db.lots[id].row.sellerId], {adminId}), user);
  }

  /**
   * A seller's own cancellation closes it and reaches everybody who watched it once, and the seller
   * never; nobody had bid.
   */
  lemma {:induction false} OwnCancellationTells(s: System, id: AuctionId, now: Millis, user: UserId)
    requires Reachable(s) && id in s.db.lots
    requires s.db.lots[id].row.status == DRAFT || s.db.lots[id].row.status == SCHEDULED
    ensures
      var before := s.db.lots[id];
      var after := WithOp(s.db, id, CancelOwn(before.row.sellerId, now)).lots[id];
      && after.row.status == CANCELLED && before.bids == []
      && RowsFor(after.notices, AUCTION_CANCELLED, user) ==
           (if user != before.row.sellerId && user in before.watchers then 1 else 0)
      && (user != before.row.sellerId ==> WithOp(s.db, id, CancelOwn(user, now)) == s.db)
  {
    hide Reachable, Ledger, Deadline, LogAgrees, Gate, Gallery, Distinct, OfKind, OutbidRows, Audience, AddAll, RowsFor,
      Cancelled, NoticesTo;
    var lot := s.db.lots[id];
    GoodLot(s, id);
    assert lot.bids == [] && lot.row.bidCount == 0 by { NothingBid(lot); }
    CancelledExactlyWhen(lot, lot.row.sellerId, now);
    AudienceMembers(lot.bids, lot.watchers, {lot.row.sellerId});
    CancelledRows(lot, lot.row.sellerId, now, Audience(lot.bids, lot.watchers, {lot.row.sellerId}), user);
  }

  lemma {:induction false} NothingBid(lot: Lot)
    requires LotInv(lot) && (lot.row.status == DRAFT || lot.row.status == SCHEDULED)
    ensures lot.bids == [] && lot.row.bidCount == 0
  {
    hide Deadline, LogAgrees, Gate, Gallery, Told, Distinct;
  }

  lemma {:induction false} AdminRecipients(lot: Lot, adminId: UserId, user: UserId)
    ensures
      var recipients := AddAll(Audience(lot.bids, lot.watchers, {adminId}), [lot.row.sellerId], {adminId});
      && Distinct(recipients)
      && (user in recipients <==>
          user != adminId && (user == lot.row.sellerId || user in lot.watchers || HasBid(lot, user)))
  {
    AudienceMembers(lot.bids, lot.watchers, {adminId});
    AddAllMembers(Audience(lot.bids, lot.watchers, {adminId}), [lot.row.sellerId], {adminId});
  }

  lemma {:induction false} CancelledRows(lot: Lot, actor: UserId, now: Millis, recipients: seq<UserId>, user: UserId)
    requires OfKind(lot.notices, AUCTION_CANCELLED) == [] && Distinct(recipients)
    ensures RowsFor(Cancelled(lot, actor, now, recipients).notices, AUCTION_CANCELLED, user) == if user in recipients
        then 1 else 0
  {
    var rows := NoticesTo(recipients, AUCTION_CANCELLED, None);
    var all := Cancelled(lot, actor, now, recipients).notices;
    assert all == lot.notices + rows;
    hide Cancelled, RowsFor, OfKind, Distinct;
    OfKindConcat(lot.notices, rows, AUCTION_CANCELLED);
    OfKindAll(rows, AUCTION_CANCELLED, AUCTION_CANCELLED);
    assert OfKind(all, AUCTION_CANCELLED) == rows;
    RowsAreOfKind(all, AUCTION_CANCELLED, user);
    OneRowEach(recipients, rows, AUCTION_CANCELLED, user);
  }

  /** The outbid rows are exactly the bids that followed somebody else's, each to the person it displaced. */
  lemma {:induction false} OutbidRowsAreDisplacements(s: System, id: AuctionId)
    requires Reachable(s) && id in s.db.lots
    ensures OfKind(s.db.lots[id].notices, OUTBID) == OutbidRows(s.db.lots[id].bids)
  {
    hide Reachable, Ledger, Deadline, LogAgrees, Outcome, Gate, Gallery, Distinct, OfKind, OutbidRows;
    GoodLot(s, id);
    assert Told(s.db.lots[id].row, s.db.lots[id].bids, s.db.lots[id].notices);
  }

  // ---- Settlement is safe because it is one step ----

  /**
   * Were settlement to read the top bid in one step and write in a later one,
   * guarded as it is on the status alone, it would write what a single step
   * writes exactly when no bid was committed in between.
   */
  lemma {:induction false} SplitSettlementAgrees(s: System, id: AuctionId, more: seq<Action>, now: Millis)
    requires Reachable(s) && id in s.db.lots && DueToSettle(s.db.lots[id].row, now)
    requires id in Run(s, more).db.lots && Run(s, more).db.lots[id].row.status == ACTIVE
    ensures
      var read, write := s.db.lots[id], Run(s, more).db.lots[id];
      && (Leader(read.bids).Some? ==> Leader(read.bids).value < |write.bids|)
      && (SettledWith(write, Leader(read.bids), now) == SettledWith(write, Leader(write.bids), now)
          <==> write.row.bidCount == read.row.bidCount)
  {
    hide Reachable, Run, Deadline, LogAgrees, Outcome, Gate, Gallery, Told, Distinct, Inv, SettledWith, Leader;
    GoodLot(s, id);
    ReachableIsGood(s);
    RunKeeps(s, more);
    GoodInLots(Run(s, more), id);
    assert Evolves(s.db.lots[id], Run(s, more).db.lots[id]);
    LeadersDiffer(s.db.lots[id], Run(s, more).db.lots[id], now);
  }

  lemma {:induction false} GoodInLots(s: System, id: AuctionId)
    requires Inv(s) && id in s.db.lots
    ensures LotInv(s.db.lots[id])
  {
  }

  lemma {:induction false} LeadersDiffer(read: Lot, write: Lot, now: Millis)
    requires Ledger(read.row, read.bids) && Ledger(write.row, write.bids) && read.bids <= write.bids
    ensures Leader(read.bids).Some? ==> Leader(read.bids).value < |write.bids|
    ensures SettledWith(write, Leader(read.bids), now) == SettledWith(write, Leader(write.bids), now)
            <==> write.row.bidCount == read.row.bidCount
  {
    hide SettledWith, Leader;
    LeaderIsLastBid(read.row, read.bids);
    LeaderIsLastBid(write.row, write.bids);
    EndedNames(write, Leader(read.bids), now);
    EndedNames(write, Leader(write.bids), now);
  }

  lemma {:induction false} EndedNames(lot: Lot, top: Option<nat>, now: Millis)
    requires top.Some? ==> top.value < |lot.bids|
    ensures SettledWith(lot, top, now).events[|lot.events|].bid == top
  {
    hide EndedRecipients;
  }

  const SELLER: UserId := 1
  const BIDDER: UserId := 2
  const LAMP: Terms := Terms("L", "l", 0, 7, 10_000, 500, None, Some(0), Some(600_000))

  /** A lot published at once, in a database that holds nothing else. */
  ghost function OpenLot(): Db {
    WithOp(Db(map[3 := Drafted(SELLER, LAMP, 1)], map[], map[7 := true]), 3, Publish(SELLER, 0))
  }

  lemma {:induction false} OpenLotIsOpen()
    ensures 3 in OpenLot().lots && OpenLot().requests == map[]
    ensures
      var lot := OpenLot().lots[3];
      && lot.bids == [] && lot.extensions == [] && lot.row.terms == LAMP
      && lot.row.status == ACTIVE && lot.row.currentEndAt == Some(600_000)
      && lot.row.bidCount == 0 && lot.row.extensionCount == 0 && lot.row.sellerId == SELLER
  {
    var lot := Drafted(SELLER, LAMP, 1);
    assert !IsSpace(LAMP.title[0]) && !IsSpace(LAMP.description[0]);
    assert GateHolds(lot.row.terms, lot.images);
    PublishableMeans(lot.row.terms, lot.images, map[7 := true], 0);
    hide Publishable;
  }

  /** It is a state the marketplace reaches: an admin opens a category, a seller drafts and publishes. */
  lemma {:induction false} OpenLotIsReachable()
    ensures OpenLot() == Next(Next(Next(EMPTY, SetCategory(7, true)), CreateDraft(3, SELLER, LAMP, 1)),
        OnAuction(3, Publish(SELLER, 0))).db
  {
    hide OpStep;
    var categories: map<CategoryId, bool> := map[7 := true];
    assert Next(EMPTY, SetCategory(7, true)).db.categories == categories;
    var drafted := Next(Next(EMPTY, SetCategory(7, true)), CreateDraft(3, SELLER, LAMP, 1)).db;
    assert drafted.lots == map[3 := Drafted(SELLER, LAMP, 1)];
  }

  /**
   * A bid judged a second before the end and committed between the two halves
   * of a split settlement: it is on record, there is no reserve, and the lot
   * would go unsold.
   */
  lemma {:induction false} SplitSettlementLosesABid()
    ensures
      var attempt := Attempt(3, BIDDER, 10_000, 99, 599_000, LookedUp);
      var judged := attempt.(phase := Judge(OpenLot(), attempt));
      && 3 in OpenLot().lots && DueToSettle(OpenLot().lots[3].row, 600_000)
      && Leader(OpenLot().lots[3].bids) == None
      && judged.phase.Judged?
      && var later := Advance(OpenLot(), judged).0;
      && 3 in later.lots && |later.lots[3].bids| == 1 && later.lots[3].row.status == ACTIVE
      && SettledWith(later.lots[3], None, 600_000).row.status == UNSOLD
      && SettledWith(later.lots[3], Leader(later.lots[3].bids), 600_000).row.status == SOLD
  {
    OpenLotIsOpen();
    hide OpenLot, EndedRecipients, NoticesTo;
    var attempt := Attempt(3, BIDDER, 10_000, 99, 599_000, LookedUp);
    var judged := attempt.(phase := Judge(OpenLot(), attempt));
    assert judged.phase.Judged?;
    var lot := OpenLot().lots[3];
    var later := Advance(OpenLot(), judged).0;
    WithBidAppends(lot, judged, judged.phase.snapshot, judged.phase.extension);
    WithBidRow(lot, judged, judged.phase.snapshot, judged.phase.extension);
    assert later.lots[3] == WithBid(lot, judged, judged.phase.snapshot, judged.phase.extension);
    hide WithBid;
    assert later.lots[3].bids[..0] == [];
  }
}
