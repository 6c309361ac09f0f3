/** The negotiation service as it runs: reads, refusals in order, one row written. */
module NegotiatorFacade {
  import opened Wrappers
  import opened Negotiator

  /** The offers of one buyer on one listing, as the service reads and writes them. */
  class Service {
    var rows: seq<Row>

    ghost predicate Valid()
      reads this
    {
      Limited(rows)
    }

    constructor ()
      ensures Valid() && rows == []
    {
      rows := [];
    }

    method Negotiate(request: Request) returns (r: Result<Row, Refusal>)
      requires Valid() && Before(rows, request.readAt) && request.readAt <= request.checkAt <= request.createdAt
      modifies this
      ensures r == Negotiator.Negotiate(old(rows), request)
      ensures AnsweredRight(old(rows), request, r)
      ensures rows == if r.Ok? then old(rows) + [r.value] else old(rows)
      ensures Valid() && Before(rows, request.createdAt)
    {
      SpacedInOrder(rows);
      OffersAreAnsweredExactlyWhen(rows, request);
      hide Recent, FindOutstandingCounter, AssertWithinRateLimit, Spaced, Probes, Decide, AnsweredRight;
      var listing := request.listing;
      if !listing.active { return Err(ListingNotFound); }
      if listing.ownedByBuyer { return Err(OwnListing); }
      if listing.floor.None? { return Err(NoOffersTaken); }
      var recentOffers := Recent(rows, request.readAt);
      var outstandingCounter := FindOutstandingCounter(recentOffers);
      var isMeetingCounter := outstandingCounter.Some? && request.amount >= outstandingCounter.value;
      if !isMeetingCounter {
        var refusal := AssertWithinRateLimit(recentOffers, request.checkAt);
        if refusal.Some? { return Err(refusal.value); }
      }
      var result := Decide(request.amount, listing.floor.value, listing.price, request.quantity, listing.stockQty,
          outstandingCounter);
      var expiresAt := if result.decision == ACCEPTED then Some(request.createdAt + ACCEPT_TTL_MS) else None;
      var row := Row(request.createdAt, request.quantity, request.amount, result.decision, result.counterAmount,
          expiresAt, isMeetingCounter);
      assert Negotiator.Negotiate(rows, request) == Ok(row);
      OneMoreSpaced(rows, request, row);
      forall t ensures Probes(rows + [row], t) <= 3 {
        OneMoreProbe(rows, request, row, t);
      }
      rows := rows + [row];
      r := Ok(row);
    }
  }

  lemma {:induction false} SpacedInOrder(rows: seq<Row>)
    requires Spaced(rows)
    ensures InOrder(rows)
  {
  }
}
