/**
 * Every run of the auction side: any number of bid attempts, each advancing
 * one phase at a time, interleaved with anything sellers, admins, watchers and
 * the clock do, in any order and with any clock readings.
 */
module AuctionRuns {
  import opened AuctionRules
  import opened AuctionSteps
  import opened AuctionInvariant

  type AttemptId = nat

  datatype System = System(db: Db, attempts: map<AttemptId, Attempt>)

  datatype Action =
    | CreateDraft(id: AuctionId, sellerId: UserId, terms: Terms, imageCount: nat)
    | OnAuction(id: AuctionId, op: Op)
    | SetCategory(categoryId: CategoryId, active: bool)
    | BeginBid(attempt: AttemptId, auctionId: AuctionId, bidderId: UserId, amount: Satang, requestId: RequestId,
        now: Millis)
    | AdvanceBid(attempt: AttemptId)

  const EMPTY: System := System(Db(map[], map[], map[]), map[])

  /** A refused transaction, an unknown id or an id already taken changes nothing. */
  ghost function Next(s: System, action: Action): System {
    match action
    case CreateDraft(id, sellerId, terms, imageCount) =>
      s.(db := WithDraft(s.db, id, sellerId, terms, imageCount))
    case OnAuction(id, op) => s.(db := WithOp(s.db, id, op))
    case SetCategory(categoryId, active) =>
      s.(db := s.db.(categories := s.db.categories[categoryId := active]))
    case BeginBid(attempt, auctionId, bidderId, amount, requestId, now) =>
      if attempt in s.attempts then s
      else s.(attempts := s.attempts[attempt := Attempt(auctionId, bidderId, amount, requestId, now, Fresh)])
    case AdvanceBid(attempt) =>
      if attempt !in s.attempts then s
      else
        var (db, phase) := Advance(s.db, s.attempts[attempt]);
        System(db, s.attempts[attempt := s.attempts[attempt].(phase := phase)])
  }

  /** The state after any number of steps. */
  ghost function Run(s: System, actions: seq<Action>): System {
    if actions == [] then s else Next(Run(s, actions[..|actions| - 1]), actions[|actions| - 1])
  }

  // ---- What every step keeps ----

  /** The index on request ids and the bids point at each other, exactly. */
  ghost predicate IndexFaithful(db: Db) {
    && (forall r | r in db.requests ::
        BidAt(db, db.requests[r]).Some? && BidAt(db, db.requests[r]).value.requestId == r)
    && (forall a, i | a in db.lots && 0 <= i < |db.lots[a].bids| ::
          var r := db.lots[a].bids[i].requestId;
          r in db.requests && db.requests[r] == BidRef(a, i))
  }

  ghost predicate DbInv(db: Db) {
    && (forall a | a in db.lots :: LotInv(db.lots[a]))
    && IndexFaithful(db)
  }

  ghost predicate AttemptInv(db: Db, attempt: Attempt) {
    match attempt.phase
    case Fresh => true
    case LookedUp => true
    case Judged(snapshot, extension) =>
      && attempt.auctionId in db.lots
      && var row := db.lots[attempt.auctionId].row;
      && JudgedOn(snapshot, attempt, extension)
      && snapshot.rowVersion <= row.rowVersion
      && (snapshot.rowVersion == row.rowVersion ==> snapshot == row)
    case LostRace => true
    case Violated => attempt.requestId in db.requests
    case Answered(Recorded(ref)) => AnswersWith(db, attempt, ref) && BidAt(db, ref).value.bidderId == attempt.bidderId
    case Answered(Replayed(ref)) => AnswersWith(db, attempt, ref)
    case Answered(Refused(why)) => why != Unconfirmed && why != UnexpectedViolation
  }

  /** The answer is the one bid on record for this request id, and it is for this auction and amount. */
  ghost predicate AnswersWith(db: Db, attempt: Attempt, ref: BidRef) {
    && attempt.requestId in db.requests && db.requests[attempt.requestId] == ref
    && ref.auctionId == attempt.auctionId
    && BidAt(db, ref).Some?
    && BidAt(db, ref).value.amount == attempt.amount
    && BidAt(db, ref).value.requestId == attempt.requestId
  }

  /** No two attempts were told they placed the same bid. */
  ghost predicate RecordedApart(attempts: map<AttemptId, Attempt>) {
    forall x, y | x in attempts && y in attempts && x != y
      && attempts[x].phase.Answered? && attempts[x].phase.answer.Recorded?
      && attempts[y].phase.Answered? && attempts[y].phase.answer.Recorded? ::
      attempts[x].phase.answer.bid != attempts[y].phase.answer.bid
  }

  ghost predicate Inv(s: System) {
    && DbInv(s.db)
    && (forall x | x in s.attempts :: AttemptInv(s.db, s.attempts[x]))
    && RecordedApart(s.attempts)
  }

  ghost predicate DbEvolves(before: Db, after: Db) {
    && (forall a | a in before.lots :: a in after.lots && Evolves(before.lots[a], after.lots[a]))
    && (forall r | r in before.requests :: r in after.requests && after.requests[r] == before.requests[r])
  }

  lemma {:induction false} BidAtSurvives(before: Db, after: Db, ref: BidRef)
    requires DbEvolves(before, after) && BidAt(before, ref).Some?
    ensures BidAt(after, ref) == BidAt(before, ref)
  {
    assert before.lots[ref.auctionId].bids <= after.lots[ref.auctionId].bids;
  }

  /** Whatever else happens to the database, an attempt in flight keeps what it knows. */
  lemma {:induction false} AttemptSurvives(before: Db, after: Db, attempt: Attempt)
    requires DbEvolves(before, after) && AttemptInv(before, attempt)
    ensures AttemptInv(after, attempt)
  {
    match attempt.phase {
      case Judged(snapshot, extension) =>
        assert Evolves(before.lots[attempt.auctionId], after.lots[attempt.auctionId]);
      case Answered(Recorded(ref)) => BidAtSurvives(before, after, ref);
      case Answered(Replayed(ref)) => BidAtSurvives(before, after, ref);
      case _ =>
    }
  }

  /** Replacing a lot by one with the same bids leaves the index faithful. */
  lemma {:induction false} LotReplaced(db: Db, after: Db, id: AuctionId)
    requires DbInv(db) && id in after.lots
    requires after == db.(lots := db.lots[id := after.lots[id]])
    requires LotInv(after.lots[id])
    requires id in db.lots ==> Evolves(db.lots[id], after.lots[id]) && after.lots[id].bids == db.lots[id].bids
    requires id !in db.lots ==> after.lots[id].bids == []
    ensures DbInv(after) && DbEvolves(db, after)
  {
    hide LotInv, Evolves;
    forall a | a in db.lots
      ensures Evolves(db.lots[a], after.lots[a])
    {
      if a != id { EvolvesReflexive(db.lots[a]); }
    }
    forall a, i | a in after.lots && 0 <= i < |after.lots[a].bids|
      ensures after.lots[a].bids[i].requestId in db.requests
          && db.requests[after.lots[a].bids[i].requestId] == BidRef(a, i)
    {
      assert db.lots[a].bids[i] == after.lots[a].bids[i];
    }
  }

  lemma {:induction false} EvolvesReflexive(lot: Lot)
    ensures Evolves(lot, lot)
  {
  }

  /** A judged attempt whose guard matches is looking at the very row it judged. */
  lemma {:induction false} GuardMeansSnapshot(db: Db, attempt: Attempt)
    requires AttemptInv(db, attempt) && attempt.phase.Judged?
    requires GuardMatches(db.lots[attempt.auctionId].row, attempt.phase.snapshot, attempt.now)
    ensures db.lots[attempt.auctionId].row == attempt.phase.snapshot
    ensures JudgedOn(db.lots[attempt.auctionId].row, attempt, attempt.phase.extension)
  {
  }

  ghost predicate Writes(db: Db, attempt: Attempt) {
    attempt.phase.Judged? && Commit(db, attempt, attempt.phase.snapshot, attempt.phase.extension).1.Answered?
    && Commit(db, attempt, attempt.phase.snapshot, attempt.phase.extension).1.answer.Recorded?
  }

  lemma {:induction false} CommitLot(db: Db, lot: Lot, attempt: Attempt)
    requires Writes(db, attempt) && AttemptInv(db, attempt)
    requires lot == db.lots[attempt.auctionId] && LotInv(lot)
    ensures
      var after := WithBid(lot, attempt, attempt.phase.snapshot, attempt.phase.extension);
      LotInv(after) && Evolves(lot, after)
  {
    hide LotInv, Evolves, WithBid;
    GuardMeansSnapshot(db, attempt);
    BidKeeps(lot, WithBid(lot, attempt, lot.row, attempt.phase.extension), attempt, attempt.phase.extension);
  }

  /** The two tables a recorded bid writes. */
  lemma {:induction false} CommitShape(db: Db, attempt: Attempt)
    requires Writes(db, attempt)
    ensures
      var id := attempt.auctionId;
      && id in db.lots && attempt.requestId !in db.requests
      && var after := Advance(db, attempt).0;
      && var ref := BidRef(id, |db.lots[id].bids|);
      && after.lots == db.lots[id := WithBid(db.lots[id], attempt, attempt.phase.snapshot, attempt.phase.extension)]
      && after.requests == db.requests[attempt.requestId := ref]
      && Advance(db, attempt).1 == Answered(Recorded(ref))
  {
    hide WithBid;
  }

  lemma {:induction false} WithBidAppends(lot: Lot, attempt: Attempt, snapshot: Auction, extension: ExtensionDecision)
    ensures WithBid(lot, attempt, snapshot, extension).bids ==
            lot.bids + [Bid(attempt.bidderId, attempt.amount, snapshot.bidCount + 1, attempt.requestId, attempt.now)]
  {
    hide Leader;
  }

  lemma {:induction false} CommitIndex(db: Db, after: Db, attempt: Attempt)
    requires IndexFaithful(db) && Writes(db, attempt)
    requires after == Advance(db, attempt).0
    ensures IndexFaithful(after)
    ensures
      var ref := BidRef(attempt.auctionId, |db.lots[attempt.auctionId].bids|);
      && Advance(db, attempt).1 == Answered(Recorded(ref))
      && after.requests == db.requests[attempt.requestId := ref]
      && AnswersWith(after, attempt, ref) && BidAt(after, ref).value.bidderId == attempt.bidderId
  {
    var id := attempt.auctionId;
    CommitShape(db, attempt);
    WithBidAppends(db.lots[id], attempt, attempt.phase.snapshot, attempt.phase.extension);
    hide WithBid, Advance, Writes;
    var bids := db.lots[id].bids;
    var added := after.lots[id].bids;
    forall r | r in after.requests
      ensures BidAt(after, after.requests[r]).Some? && BidAt(after, after.requests[r]).value.requestId == r
    {
      if r != attempt.requestId {
        var ref := db.requests[r];
        assert BidAt(db, ref).Some?;
        if ref.auctionId == id { assert added[ref.index] == bids[ref.index]; }
      }
    }
    forall a, i | a in after.lots && 0 <= i < |after.lots[a].bids|
      ensures
        var r := after.lots[a].bids[i].requestId;
        r in after.requests && after.requests[r] == BidRef(a, i)
    {
      if a == id && i == |bids| {
      } else {
        assert after.lots[a].bids[i] == db.lots[a].bids[i];
        assert db.lots[a].bids[i].requestId in db.requests;
      }
    }
  }

  lemma {:induction false} CommitKeeps(db: Db, after: Db, attempt: Attempt)
    requires DbInv(db) && AttemptInv(db, attempt) && Writes(db, attempt)
    requires after == Advance(db, attempt).0
    ensures DbInv(after) && DbEvolves(db, after)
    ensures AttemptInv(after, attempt.(phase := Advance(db, attempt).1))
  {
    hide LotInv, Evolves, WithBid, IndexFaithful, Advance, Writes;
    CommitShape(db, attempt);
    CommitLot(db, db.lots[attempt.auctionId], attempt);
    CommitIndex(db, after, attempt);
    forall a | a in db.lots
      ensures Evolves(db.lots[a], after.lots[a])
    {
      if a != attempt.auctionId { EvolvesReflexive(db.lots[a]); }
    }
  }

  /** A look-up answers with the bid on record or refuses; it never invents one. */
  lemma {:induction false} LookUpKeeps(db: Db, attempt: Attempt, otherwise: Phase)
    requires DbInv(db)
    requires attempt.requestId !in db.requests ==> AttemptInv(db, attempt.(phase := otherwise))
    ensures AttemptInv(db, attempt.(phase := LookUp(db, attempt, otherwise)))
    ensures LookUp(db, attempt, otherwise).Answered? && LookUp(db, attempt, otherwise).answer.Recorded? ==>
              LookUp(db, attempt, otherwise) == otherwise
  {
    hide LotInv;
  }

  lemma {:induction false} JudgeKeeps(db: Db, attempt: Attempt)
    ensures AttemptInv(db, attempt.(phase := Judge(db, attempt)))
    ensures Judge(db, attempt).Answered? ==> Judge(db, attempt).answer.Refused?
  {
  }

  lemma {:induction false} QuietAdvance(db: Db, attempt: Attempt)
    requires DbInv(db) && AttemptInv(db, attempt) && !Writes(db, attempt)
    ensures Advance(db, attempt).0 == db
    ensures AttemptInv(db, attempt.(phase := Advance(db, attempt).1))
    ensures Advance(db, attempt).1.Answered? && Advance(db, attempt).1.answer.Recorded? ==>
        Advance(db, attempt).1 == attempt.phase
  {
    hide LotInv, DbInv, WithBid, Judge, LookUp;
    match attempt.phase {
      case Fresh => LookUpKeeps(db, attempt, LookedUp);
      case LookedUp => JudgeKeeps(db, attempt);
      case Judged(snapshot, extension) => LosingCommit(db, attempt);
      case LostRace => LookUpKeeps(db, attempt, Answered(Refused(SomebodyBidFirst)));
      case Violated => LookUpKeeps(db, attempt, Answered(Refused(Unconfirmed)));
      case Answered(_) => assert attempt.(phase := attempt.phase) == attempt;
    }
  }

  /** One phase of one attempt: either it records a bid, or the database is exactly as it was. */
  lemma {:induction false} AdvanceKeeps(db: Db, attempt: Attempt)
    requires DbInv(db) && AttemptInv(db, attempt)
    ensures
      var (after, phase) := Advance(db, attempt);
      && DbInv(after) && DbEvolves(db, after) && AttemptInv(after, attempt.(phase := phase))
      && (!Writes(db, attempt) ==> after == db)
      && (phase.Answered? && phase.answer.Recorded? ==> Writes(db, attempt) || phase == attempt.phase)
  {
    hide LotInv, Evolves, DbInv, DbEvolves, AttemptInv, Advance, Writes;
    SameDbEvolves(db);
    if Writes(db, attempt) {
      CommitKeeps(db, Advance(db, attempt).0, attempt);
    } else {
      QuietAdvance(db, attempt);
    }
  }

  lemma {:induction false} SameDbEvolves(db: Db)
    ensures DbEvolves(db, db)
  {
  }

  /** A commit that records nothing lost a race or a unique index; it writes nothing and never fails otherwise. */
  lemma {:induction false} LosingCommit(db: Db, attempt: Attempt)
    requires DbInv(db) && AttemptInv(db, attempt) && attempt.phase.Judged? && !Writes(db, attempt)
    ensures Advance(db, attempt).0 == db
    ensures Advance(db, attempt).1 == LostRace
        || (Advance(db, attempt).1 == Violated && attempt.requestId in db.requests)
  {
    hide WithBid, Evolves;
    var id := attempt.auctionId;
    if GuardMatches(db.lots[id].row, attempt.phase.snapshot, attempt.now) && attempt.requestId !in db.requests {
      GuardMeansSnapshot(db, attempt);
      BidKeeps(db.lots[id], WithBid(db.lots[id], attempt, db.lots[id].row, attempt.phase.extension), attempt,
          attempt.phase.extension);
    }
  }

  // ---- Steps and runs ----

  lemma {:induction false} OthersSurvive(s: System, after: Db, except: set<AttemptId>)
    requires Inv(s) && DbEvolves(s.db, after)
    ensures forall x | x in s.attempts && x !in except :: AttemptInv(after, s.attempts[x])
  {
    hide LotInv, Evolves, DbEvolves, AttemptInv;
    forall x | x in s.attempts && x !in except
      ensures AttemptInv(after, s.attempts[x])
    {
      AttemptSurvives(s.db, after, s.attempts[x]);
    }
  }

  /** A bid recorded now is a row that did not exist before, so nobody was told of it yet. */
  lemma {:induction false} StillApart(s: System, id: AttemptId)
    requires Inv(s) && id in s.attempts && Writes(s.db, s.attempts[id])
    ensures RecordedApart(s.attempts[id := s.attempts[id].(phase := Advance(s.db, s.attempts[id]).1)])
  {
    hide LotInv, Evolves, Advance, Writes, WithBid;
    var after := Advance(s.db, s.attempts[id]).0;
    CommitIndex(s.db, after, s.attempts[id]);
    forall x | x in s.attempts && s.attempts[x].phase.Answered? && s.attempts[x].phase.answer.Recorded?
      ensures s.attempts[x].phase.answer.bid != Advance(s.db, s.attempts[id]).1.answer.bid
    {
      assert AttemptInv(s.db, s.attempts[x]);
    }
  }

  lemma {:induction false} BidStepKeeps(s: System, id: AttemptId)
    requires Inv(s) && id in s.attempts
    ensures Inv(Next(s, AdvanceBid(id))) && DbEvolves(s.db, Next(s, AdvanceBid(id)).db)
  {
    hide LotInv, Evolves, DbInv, DbEvolves, AttemptInv, Advance, Writes;
    AdvanceKeeps(s.db, s.attempts[id]);
    OthersSurvive(s, Advance(s.db, s.attempts[id]).0, {id});
    if Writes(s.db, s.attempts[id]) {
      StillApart(s, id);
    }
  }

  /** One transaction on one auction, whether it writes or is refused. */
  lemma {:induction false} WithOpKeeps(db: Db, id: AuctionId, op: Op)
    requires DbInv(db)
    ensures DbInv(WithOp(db, id, op)) && DbEvolves(db, WithOp(db, id, op))
  {
    hide LotInv, Evolves, OpStep, IndexFaithful, BidAt;
    if id in db.lots && OpStep(db.lots[id], op, db.categories).Ok? {
      OpKeeps(db.lots[id], WithOp(db, id, op).lots[id], op, db.categories);
      LotReplaced(db, WithOp(db, id, op), id);
    } else {
      SameDbEvolves(db);
    }
  }

  lemma {:induction false} WithDraftKeeps(db: Db, id: AuctionId, sellerId: UserId, terms: Terms, imageCount: nat)
    requires DbInv(db)
    ensures DbInv(WithDraft(db, id, sellerId, terms, imageCount))
        && DbEvolves(db, WithDraft(db, id, sellerId, terms, imageCount))
  {
    hide LotInv, Evolves, IndexFaithful, BidAt, FreshImages;
    SameDbEvolves(db);
    DraftedKeeps(sellerId, terms, imageCount);
    if WithDraft(db, id, sellerId, terms, imageCount) != db {
      LotReplaced(db, WithDraft(db, id, sellerId, terms, imageCount), id);
    }
  }

  lemma {:induction false} OpActionKeeps(s: System, id: AuctionId, op: Op)
    requires Inv(s)
    ensures Inv(Next(s, OnAuction(id, op))) && DbEvolves(s.db, Next(s, OnAuction(id, op)).db)
  {
    hide DbInv, WithOp, AttemptInv, DbEvolves;
    WithOpKeeps(s.db, id, op);
    OthersSurvive(s, WithOp(s.db, id, op), {});
  }

  lemma {:induction false} CreateKeeps(s: System, id: AuctionId, sellerId: UserId, terms: Terms, imageCount: nat)
    requires Inv(s)
    ensures Inv(Next(s, CreateDraft(id, sellerId, terms, imageCount)))
    ensures DbEvolves(s.db, Next(s, CreateDraft(id, sellerId, terms, imageCount)).db)
  {
    hide DbInv, WithDraft, AttemptInv, DbEvolves;
    WithDraftKeeps(s.db, id, sellerId, terms, imageCount);
    OthersSurvive(s, WithDraft(s.db, id, sellerId, terms, imageCount), {});
  }

  lemma {:induction false} CategoryKeeps(s: System, categoryId: CategoryId, active: bool)
    requires Inv(s)
    ensures Inv(Next(s, SetCategory(categoryId, active)))
    ensures DbEvolves(s.db, Next(s, SetCategory(categoryId, active)).db)
  {
    var after := Next(s, SetCategory(categoryId, active)).db;
    SameDbEvolves(s.db);
    hide LotInv, Evolves;
    assert forall ref :: BidAt(after, ref) == BidAt(s.db, ref);
    OthersSurvive(s, after, {});
  }

  /** Every step keeps the invariant and only moves the database forward. */
  lemma {:induction false} NextKeeps(s: System, action: Action)
    requires Inv(s)
    ensures Inv(Next(s, action)) && DbEvolves(s.db, Next(s, action).db)
  {
    hide LotInv, DbInv, Evolves, AttemptInv, DbEvolves, OpStep, Advance;
    SameDbEvolves(s.db);
    match action {
      case CreateDraft(id, sellerId, terms, imageCount) => CreateKeeps(s, id, sellerId, terms, imageCount);
      case OnAuction(id, op) => OpActionKeeps(s, id, op);
      case SetCategory(categoryId, active) => CategoryKeeps(s, categoryId, active);
      case BeginBid(attempt, auctionId, bidderId, amount, requestId, now) => BeginKeeps(s, action);
      case AdvanceBid(attempt) =>
        if attempt in s.attempts { BidStepKeeps(s, attempt); }
    }
  }

  lemma {:induction false} BeginKeeps(s: System, action: Action)
    requires Inv(s) && action.BeginBid?
    ensures Inv(Next(s, action)) && Next(s, action).db == s.db
  {
    hide LotInv, DbInv;
  }

  lemma {:induction false} DbEvolvesTransitive(a: Db, b: Db, c: Db)
    requires DbEvolves(a, b) && DbEvolves(b, c)
    ensures DbEvolves(a, c)
  {
    hide Evolves;
    forall id | id in a.lots
      ensures Evolves(a.lots[id], c.lots[id])
    {
      EvolvesTransitive(a.lots[id], b.lots[id], c.lots[id]);
    }
  }

  /** From any good state, any run ends in a good state, further along. */
  lemma {:induction false} RunKeeps(s: System, actions: seq<Action>)
    requires Inv(s)
    ensures Inv(Run(s, actions)) && DbEvolves(s.db, Run(s, actions).db)
    decreases |actions|
  {
    hide Inv, DbEvolves, Next;
    SameDbEvolves(s.db);
    if actions != [] {
      var before := Run(s, actions[..|actions| - 1]);
      RunKeeps(s, actions[..|actions| - 1]);
      NextKeeps(before, actions[|actions| - 1]);
      DbEvolvesTransitive(s.db, before.db, Run(s, actions).db);
    }
  }

  /** Every state the marketplace can reach is a good one. */
  lemma {:induction false} ReachableInv(actions: seq<Action>)
    ensures Inv(Run(EMPTY, actions))
  {
    assert Inv(EMPTY);
    RunKeeps(EMPTY, actions);
  }
}
