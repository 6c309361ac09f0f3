/**
 * One buyer haggling over one listing: what an offer is answered with, and how
 * often one may be made. Money is in satang, time in milliseconds.
 */
module Negotiator {
  import opened Wrappers

  type Satang = int
  type Millis = int

  const COOLDOWN_MS: Millis := 5 * 60 * 1000
  const MAX_ATTEMPTS_PER_WINDOW: nat := 3
  const ATTEMPT_WINDOW_MS: Millis := 24 * 60 * 60 * 1000
  const ACCEPT_TTL_MS: Millis := 15 * 60 * 1000

  datatype Decision = REJECTED | ACCEPTED | COUNTERED

  datatype Verdict = Verdict(decision: Decision, counterAmount: Option<Satang>)

  /** Halves the way to the asking price, to the nearest satang, half a satang up. */
  function Midpoint(offerAmount: Satang, currentPrice: Satang): Satang {
    (offerAmount + currentPrice + 1) / 2
  }

  function Decide(offerAmount: Satang, floor: Satang, currentPrice: Satang, quantity: nat, stockQty: int,
      outstanding: Option<Satang>): Verdict {
    if quantity > stockQty then Verdict(REJECTED, None)
    else if offerAmount < floor then Verdict(REJECTED, None)
    else if offerAmount >= currentPrice then Verdict(ACCEPTED, None)
    else if outstanding.Some? && offerAmount >= outstanding.value then Verdict(ACCEPTED, None)
    else Verdict(COUNTERED, Some(Midpoint(offerAmount, currentPrice)))
  }

  /**
   * Never a sale below the floor; a counter lies above the offer and not above the asking price, and
   * halves the gap.
   */
  lemma {:induction false} VerdictIsSafe(offerAmount: Satang, floor: Satang, currentPrice: Satang, quantity: nat,
      stockQty: int, outstanding: Option<Satang>)
    ensures
      var v := Decide(offerAmount, floor, currentPrice, quantity, stockQty, outstanding);
      && (v.decision == REJECTED <==> quantity > stockQty || offerAmount < floor)
      && (v.decision == ACCEPTED <==>
            quantity <= stockQty && offerAmount >= floor
            && (offerAmount >= currentPrice || (outstanding.Some? && offerAmount >= outstanding.value)))
      && (v.counterAmount.Some? <==> v.decision == COUNTERED)
      && (v.decision == COUNTERED ==>
            && floor <= offerAmount < v.counterAmount.value <= currentPrice
            && currentPrice - v.counterAmount.value == (currentPrice - offerAmount) / 2
            && 2 * v.counterAmount.value - (offerAmount + currentPrice) in {0, 1})
  {
  }

  // ---- Taking each counter as the next offer ----

  function Pow2(k: nat): (r: nat)
    ensures r >= 1
  {
    if k == 0 then 1 else 2 * Pow2(k - 1)
  }

  /**
   * The k-th offer of a buyer who offers each counter back with none outstanding;
   * an offer that is answered with no counter stays.
   */
  function Haggled(offerAmount: Satang, floor: Satang, currentPrice: Satang, quantity: nat, stockQty: int,
      k: nat): Satang {
    if k == 0 then offerAmount
    else
      var before := Haggled(offerAmount, floor, currentPrice, quantity, stockQty, k - 1);
      var v := Decide(before, floor, currentPrice, quantity, stockQty, None);
      if v.counterAmount.Some? then v.counterAmount.value else before
  }

  lemma {:induction false} ProductGrows(a: nat, b: nat, d: nat)
    ensures a <= b ==> a * d <= b * d
  {
    if a <= b { assert b * d == a * d + (b - a) * d; }
  }

  lemma {:induction false} QuotientIs(n: nat, d: nat, q: nat, r: nat)
    requires d > 0 && n == q * d + r && r < d
    ensures n / d == q
  {
    var found := n / d;
    Division(n, d);
    ProductGrows(found + 1, q, d);
    ProductGrows(q + 1, found, d);
    assert (found + 1) * d == found * d + d && (q + 1) * d == q * d + d;
  }

  lemma {:induction false} Division(n: nat, d: nat)
    requires d > 0
    ensures n == (n / d) * d + n % d
  {
  }

  lemma {:induction false} Regroup(q: nat, d: nat, e: nat, twice: nat)
    requires twice == 2 * d
    ensures (2 * q + e) * d == q * twice + e * d
  {
  }

  lemma {:induction false} HalvedQuotient(n: nat, d: nat, twice: nat, q: nat, r: nat, h: nat, odd: bool)
    requires d > 0 && twice == 2 * d && n == q * d + r && r < d
    requires q == if odd then 2 * h + 1 else 2 * h
    ensures n / twice == h
  {
    Regroup(h, d, if odd then 1 else 0, twice);
    QuotientIs(n, twice, h, if odd then d + r else r);
  }

  lemma {:induction false} HalvingTwice(n: nat, d: nat, twice: nat)
    requires d > 0 && twice == 2 * d
    ensures n / d / 2 == n / twice
  {
    var q := n / d;
    Division(n, d);
    HalvedQuotient(n, d, twice, q, n % d, q / 2, q % 2 == 1);
  }

  lemma {:induction false} SmallQuotient(n: nat, d: nat)
    requires d > 0
    ensures n / d == 0 <==> n < d
  {
    if n < d { QuotientIs(n, d, 0, n); } else { assert n == n / d * d + n % d; }
  }

  /** After k counters the gap is the first gap halved k times, rounding down. */
  lemma {:induction false} GapHalves(offerAmount: Satang, floor: Satang, currentPrice: Satang, quantity: nat,
      stockQty: int, k: nat)
    requires floor <= offerAmount <= currentPrice && quantity <= stockQty
    ensures
      var offer := Haggled(offerAmount, floor, currentPrice, quantity, stockQty, k);
      floor <= offer <= currentPrice && currentPrice - offer == (currentPrice - offerAmount) / Pow2(k)
  {
    if k > 0 {
      GapHalves(offerAmount, floor, currentPrice, quantity, stockQty, k - 1);
      HalvingTwice(currentPrice - offerAmount, Pow2(k - 1), Pow2(k));
    }
  }

  /**
   * So an offer the seller could take at all does get there: its counters reach the
   * asking price, and are accepted, exactly from the first k on with 2 to the k above the gap.
   */
  lemma {:induction false} CountersReachTheAskingPrice(offerAmount: Satang, floor: Satang, currentPrice: Satang,
      quantity: nat, stockQty: int, k: nat)
    requires floor <= offerAmount <= currentPrice && quantity <= stockQty
    ensures
      var offer := Haggled(offerAmount, floor, currentPrice, quantity, stockQty, k);
      && (offer == currentPrice <==> currentPrice - offerAmount < Pow2(k))
      && (Decide(offer, floor, currentPrice, quantity, stockQty, None).decision == ACCEPTED <==>
          currentPrice - offerAmount < Pow2(k))
  {
    GapHalves(offerAmount, floor, currentPrice, quantity, stockQty, k);
    SmallQuotient(currentPrice - offerAmount, Pow2(k));
  }

  // ---- How often ----

  /** `metCounter` is no column: it records whether the offer met a standing counter. */
  datatype Row = Row(createdAt: Millis, quantity: nat, amount: Satang, decision: Decision,
      counterAmount: Option<Satang>, expiresAt: Option<Millis>, metCounter: bool)

  /** The listing as the request read it. */
  datatype Listing = Listing(active: bool, ownedByBuyer: bool, price: Satang, stockQty: int, floor: Option<Satang>)

  /** A request reads the clock three times: for the window, for the cooldown, and when the row is written. */
  datatype Request = Request(listing: Listing, quantity: nat, amount: Satang, readAt: Millis, checkAt: Millis,
      createdAt: Millis)

  datatype Refusal = ListingNotFound | OwnListing | NoOffersTaken | CoolingDown | DailyCapReached

  /** The offers of the window, newest first. */
  function Recent(rows: seq<Row>, readAt: Millis): seq<Row> {
    if rows == [] then []
    else
      var last := rows[|rows| - 1];
      (if last.createdAt > readAt - ATTEMPT_WINDOW_MS then [last] else []) + Recent(rows[..|rows| - 1], readAt)
  }

  /** The counter of the newest countered offer; a rejected one since does not withdraw it. */
  function FindOutstandingCounter(recent: seq<Row>): Option<Satang> {
    if recent == [] then None
    else if recent[0].decision == COUNTERED && recent[0].counterAmount.Some? then recent[0].counterAmount
    else FindOutstandingCounter(recent[1..])
  }

  function AssertWithinRateLimit(recent: seq<Row>, checkAt: Millis): Option<Refusal> {
    if |recent| > 0 && checkAt - recent[0].createdAt < COOLDOWN_MS then Some(CoolingDown)
    else if |recent| >= MAX_ATTEMPTS_PER_WINDOW then Some(DailyCapReached)
    else None
  }

  function Negotiate(rows: seq<Row>, request: Request): Result<Row, Refusal> {
    var listing := request.listing;
    if !listing.active then Err(ListingNotFound)
    else if listing.ownedByBuyer then Err(OwnListing)
    else if listing.floor.None? then Err(NoOffersTaken)
    else
      var recent := Recent(rows, request.readAt);
      var outstanding := FindOutstandingCounter(recent);
      var meeting := outstanding.Some? && request.amount >= outstanding.value;
      var limited := if meeting then None else AssertWithinRateLimit(recent, request.checkAt);
      if limited.Some? then Err(limited.value)
      else
        var v := Decide(request.amount, listing.floor.value, listing.price, request.quantity, listing.stockQty,
            outstanding);
        Ok(Row(request.createdAt, request.quantity, request.amount, v.decision, v.counterAmount,
               if v.decision == ACCEPTED then Some(request.createdAt + ACCEPT_TTL_MS) else None, meeting))
  }

  /** Every offer on record after these requests. */
  function Book(requests: seq<Request>): seq<Row> {
    if requests == [] then []
    else
      var before := Book(requests[..|requests| - 1]);
      var r := Negotiate(before, requests[|requests| - 1]);
      if r.Ok? then before + [r.value] else before
  }

  /** One request after the other, each reading the clock forwards. */
  ghost predicate Serial(requests: seq<Request>) {
    && (forall i | 0 <= i < |requests| :: requests[i].readAt <= requests[i].checkAt <= requests[i].createdAt)
    && (forall i, j | 0 <= i < j < |requests| :: requests[i].createdAt <= requests[j].readAt)
  }

  ghost predicate Before(rows: seq<Row>, t: Millis) {
    forall i | 0 <= i < |rows| :: rows[i].createdAt <= t
  }

  /** Offers of the 24 hours up to and including t that met no counter. */
  function Probes(rows: seq<Row>, t: Millis): nat {
    if rows == [] then 0
    else
      var last := rows[|rows| - 1];
      Probes(rows[..|rows| - 1], t) + if t - 86_400_000 < last.createdAt <= t && !last.metCounter then 1 else 0
  }

  lemma {:induction false} ProbesAreRecent(rows: seq<Row>, t: Millis, readAt: Millis)
    requires readAt <= t
    ensures Probes(rows, t) <= |Recent(rows, readAt)|
    decreases |rows|
  {
    if rows != [] { ProbesAreRecent(rows[..|rows| - 1], t, readAt); }
  }

  /** An offer that met no counter comes at least the cooldown after every earlier one. */
  ghost predicate Spaced(rows: seq<Row>) {
    forall i, j | 0 <= i < j < |rows| :: rows[i].createdAt <= rows[j].createdAt
      && (!rows[j].metCounter ==> rows[j].createdAt - rows[i].createdAt >= 300_000)
  }

  /** The newest of the window is the newest of all, if that one is in the window at all. */
  lemma {:induction false} NewestFirst(rows: seq<Row>, readAt: Millis)
    requires Spaced(rows) && rows != []
    ensures
      var recent := Recent(rows, readAt);
      if rows[|rows| - 1].createdAt > readAt - 86_400_000 then recent != [] && recent[0] == rows[|rows| - 1]
          else recent == []
  {
    if rows[|rows| - 1].createdAt <= readAt - 86_400_000 {
      NothingRecent(rows, readAt);
    }
  }

  lemma {:induction false} NothingRecent(rows: seq<Row>, readAt: Millis)
    requires Before(rows, readAt - 86_400_000)
    ensures Recent(rows, readAt) == []
    decreases |rows|
  {
    if rows != [] { NothingRecent(rows[..|rows| - 1], readAt); }
  }

  lemma {:induction false} Recorded(rows: seq<Row>, request: Request, row: Row)
    requires Negotiate(rows, request) == Ok(row)
    ensures row.createdAt == request.createdAt
    ensures !row.metCounter ==> AssertWithinRateLimit(Recent(rows, request.readAt), request.checkAt).None?
  {
    hide Recent, FindOutstandingCounter, AssertWithinRateLimit, Decide;
  }

  lemma {:induction false} OneMoreSpaced(rows: seq<Row>, request: Request, row: Row)
    requires Negotiate(rows, request) == Ok(row) && Spaced(rows) && Before(rows, request.readAt)
    requires request.readAt <= request.checkAt <= request.createdAt
    ensures Spaced(rows + [row]) && Before(rows + [row], request.createdAt)
  {
    Recorded(rows, request, row);
    if rows != [] { NewestFirst(rows, request.readAt); }
    hide Negotiate, Recent;
    forall i | 0 <= i < |rows|
      ensures rows[i].createdAt <= row.createdAt
          && (!row.metCounter ==> row.createdAt - rows[i].createdAt >= 300_000)
    {
      assert rows[i].createdAt <= rows[|rows| - 1].createdAt;
    }
  }

  lemma {:induction false} OneMoreProbe(rows: seq<Row>, request: Request, row: Row, t: Millis)
    requires Negotiate(rows, request) == Ok(row) && Before(rows, request.readAt)
    requires request.readAt <= request.checkAt <= request.createdAt
    requires Probes(rows, t) <= 3
    ensures Probes(rows + [row], t) <= 3
  {
    Recorded(rows, request, row);
    hide Negotiate, Recent;
    assert (rows + [row])[..|rows|] == rows;
    if row.createdAt <= t { ProbesAreRecent(rows, t, request.readAt); }
  }

  /**
   * In any serial run, every 24 hours hold at most three offers that met no
   * counter, and each of those came five minutes or more after the offer before it.
   */
  lemma {:induction false} LimiterHolds(requests: seq<Request>, t: Millis)
    requires Serial(requests)
    ensures Spaced(Book(requests))
    ensures Probes(Book(requests), t) <= 3
    ensures requests != [] ==> Before(Book(requests), requests[|requests| - 1].createdAt)
    decreases |requests|
  {
    if requests != [] {
      var last := |requests| - 1;
      LimiterHolds(requests[..last], t);
      var before := Book(requests[..last]);
      var r := Negotiate(before, requests[last]);
      hide Negotiate, Spaced, Probes;
      assert Before(before, requests[last].readAt);
      if r.Ok? {
        OneMoreSpaced(before, requests[last], r.value);
        OneMoreProbe(before, requests[last], r.value, t);
      }
    }
  }

  // ---- Requests side by side ----

  /** A request that read its offers and was judged, and has not written its own yet. */
  datatype Pending = Pending(seen: seq<Row>, request: Request)

  /** The service with any number of requests between their read and their write. */
  datatype Desk = Desk(rows: seq<Row>, pending: map<nat, Pending>)

  datatype Event =
    | Read(id: nat, request: Request)
    | Write(id: nat, createdAt: Millis)

  const OPEN: Desk := Desk([], map[])

  /** What the judged request writes when it comes to write; nothing if it was refused. */
  function Answer(p: Pending, createdAt: Millis): Result<Row, Refusal> {
    Negotiate(p.seen, p.request.(createdAt := createdAt))
  }

  function Step(desk: Desk, event: Event): Desk {
    match event
    case Read(id, request) =>
      if id in desk.pending then desk else desk.(pending := desk.pending[id := Pending(desk.rows, request)])
    case Write(id, createdAt) =>
      if id !in desk.pending then desk
      else
        var r := Answer(desk.pending[id], createdAt);
        Desk(if r.Ok? then desk.rows + [r.value] else desk.rows, desk.pending - {id})
  }

  function Run(events: seq<Event>): Desk {
    if events == [] then OPEN else Step(Run(events[..|events| - 1]), events[|events| - 1])
  }

  /** Every request reads its clocks in order, and every event comes no earlier than what is already written. */
  ghost predicate Clocked(events: seq<Event>) {
    events != [] ==>
      var before := events[..|events| - 1];
      var desk := Run(before);
      && Clocked(before)
      && match events[|events| - 1]
         case Read(_, request) => request.readAt <= request.checkAt && Before(desk.rows, request.readAt)
         case Write(id, createdAt) =>
           id in desk.pending ==> desk.pending[id].request.checkAt <= createdAt && Before(desk.rows, createdAt)
  }

  ghost predicate Capped(rows: seq<Row>) {
    forall t :: Probes(rows, t) <= 3
  }

  /** What the service means to keep: the spacing, and at most three in any 24 hours. */
  ghost predicate Limited(rows: seq<Row>) {
    Spaced(rows) && Capped(rows)
  }

  /**
   * The offer met a counter, or the newest offer on record and the last 24 hours leave room for it as
   * it is written.
   */
  ghost predicate HasRoom(rows: seq<Row>, row: Row) {
    row.metCounter
    || ((rows == [] || rows[|rows| - 1].createdAt + 300_000 <= row.createdAt)
        && Probes(rows, row.createdAt) < 3)
  }

  /**
   * A request judged on `seen` and written after `since` keeps the spacing exactly when what it did
   * not see leaves it room.
   */
  lemma {:induction false} LateWriteIsSpacedExactlyWhen(seen: seq<Row>, since: seq<Row>, request: Request, row: Row)
    requires Negotiate(seen, request) == Ok(row) && Spaced(seen + since)
    requires request.readAt <= request.checkAt <= request.createdAt
    requires Before(seen, request.readAt) && Before(since, request.createdAt)
    ensures Spaced(seen + since + [row]) <==>
              row.metCounter || since == [] || since[|since| - 1].createdAt + 300_000 <= row.createdAt
  {
    SpacedFirst(seen, since);
    OneMoreSpaced(seen, request, row);
    Recorded(seen, request, row);
    hide Negotiate, Recent, AssertWithinRateLimit;
    var rows := seen + since;
    if since == [] {
      assert rows == seen;
    } else {
      BeforeBoth(seen, since, request.createdAt);
      assert rows[|rows| - 1] == since[|since| - 1];
      SpacedOneMore(rows, row);
    }
    hide Spaced;
  }

  lemma {:induction false} SpacedFirst(first: seq<Row>, rest: seq<Row>)
    requires Spaced(first + rest)
    ensures Spaced(first)
  {
    var all := first + rest;
    forall i, j | 0 <= i < j < |first|
      ensures first[i].createdAt <= first[j].createdAt
          && (!first[j].metCounter ==> first[j].createdAt - first[i].createdAt >= 300_000)
    {
      assert all[i] == first[i] && all[j] == first[j];
    }
  }

  lemma {:induction false} BeforeBoth(first: seq<Row>, rest: seq<Row>, t: Millis)
    requires Before(first, t) && Before(rest, t)
    ensures Before(first + rest, t)
  {
  }

  /** One more row keeps the spacing exactly when it keeps its distance from the newest. */
  lemma {:induction false} SpacedOneMore(rows: seq<Row>, row: Row)
    requires Spaced(rows) && Before(rows, row.createdAt)
    ensures Spaced(rows + [row]) <==>
        row.metCounter || rows == [] || rows[|rows| - 1].createdAt + 300_000 <= row.createdAt
  {
    var all := rows + [row];
    if rows != [] {
      assert all[|rows| - 1] == rows[|rows| - 1] && all[|rows|] == row;
      assert forall i | 0 <= i < |rows| :: rows[i].createdAt <= rows[|rows| - 1].createdAt;
    }
  }

  /** The window that ends with the newest row is the fullest of those that end with it or later. */
  lemma {:induction false} LaterWindowsHoldLess(rows: seq<Row>, at: Millis, t: Millis)
    requires Before(rows, at) && at <= t
    ensures Probes(rows, t) <= Probes(rows, at)
    decreases |rows|
  {
    if rows != [] { LaterWindowsHoldLess(rows[..|rows| - 1], at, t); }
  }

  /** One more row keeps the cap exactly when it met a counter or the window that ends with it still had room. */
  lemma {:induction false} LateWriteIsCappedExactlyWhen(rows: seq<Row>, row: Row)
    requires Before(rows, row.createdAt) && Capped(rows)
    ensures Capped(rows + [row]) <==> row.metCounter || Probes(rows, row.createdAt) < 3
  {
    var all := rows + [row];
    assert all[..|rows|] == rows;
    if row.metCounter || Probes(rows, row.createdAt) < 3 {
      forall t
        ensures Probes(all, t) <= 3
      {
        assert Probes(rows, t) <= 3;
        if t >= row.createdAt { LaterWindowsHoldLess(rows, row.createdAt, t); }
      }
    } else {
      assert Probes(all, row.createdAt) > 3;
    }
  }

  lemma {:induction false} LimitedBefore(rows: seq<Row>, row: Row)
    requires Limited(rows + [row])
    ensures Limited(rows)
  {
    var all := rows + [row];
    SpacedFirst(rows, [row]);
    forall t
      ensures Probes(rows, t) <= 3
    {
      assert all[..|rows|] == rows;
      assert Probes(all, t) <= 3;
    }
  }

  lemma {:induction false} LimitedOneMore(rows: seq<Row>, row: Row)
    requires Before(rows, row.createdAt)
    ensures Limited(rows + [row]) <==> Limited(rows) && HasRoom(rows, row)
  {
    if Limited(rows + [row]) { LimitedBefore(rows, row); }
    if Limited(rows) {
      SpacedOneMore(rows, row);
      LateWriteIsCappedExactlyWhen(rows, row);
    }
  }

  /** Every offer written along the run had room when it was written. */
  ghost predicate AllHadRoom(events: seq<Event>) {
    events != [] ==>
      var before := events[..|events| - 1];
      var event := events[|events| - 1];
      var desk := Run(before);
      && AllHadRoom(before)
      && (event.Write? && event.id in desk.pending && Answer(desk.pending[event.id], event.createdAt).Ok? ==>
            HasRoom(desk.rows, Answer(desk.pending[event.id], event.createdAt).value))
  }

  lemma {:induction false} AnswerIsDated(p: Pending, createdAt: Millis)
    ensures Answer(p, createdAt).Ok? ==> Answer(p, createdAt).value.createdAt == createdAt
  {
    hide Recent, FindOutstandingCounter, AssertWithinRateLimit, Decide;
  }

  /**
   * Over every interleaving of reads and writes: the limit holds on record exactly
   * when every offer, as it was written, met a counter or had room among all the
   * offers written by then, seen or not.
   */
  lemma {:induction false} LimitHoldsExactlyWhenEachHadRoom(events: seq<Event>)
    requires Clocked(events)
    ensures Limited(Run(events).rows) <==> AllHadRoom(events)
    decreases |events|
  {
    if events == [] {
      assert Run(events).rows == [];
      assert Capped([]);
    } else {
      var before := events[..|events| - 1];
      var event := events[|events| - 1];
      LimitHoldsExactlyWhenEachHadRoom(before);
      var desk := Run(before);
      assert Run(events) == Step(desk, event);
      assert event.Write? && event.id in desk.pending ==> Before(desk.rows, event.createdAt);
      hide Run, Answer, Limited, HasRoom, Clocked;
      if event.Write? && event.id in desk.pending && Answer(desk.pending[event.id], event.createdAt).Ok? {
        AnswerIsDated(desk.pending[event.id], event.createdAt);
        LimitedOneMore(desk.rows, Answer(desk.pending[event.id], event.createdAt).value);
      }
    }
  }

  const STALL: Listing := Listing(true, false, 1_000, 5, Some(100))

  /** An offer of 50 satang, below the floor, read and checked at midnight. */
  const LOW_OFFER: Request := Request(STALL, 1, 50, 0, 0, 0)

  function LowRow(createdAt: Millis): Row { Row(createdAt, 1, 50, REJECTED, None, None, false) }

  lemma {:induction false} LowOfferIsAnswered(createdAt: Millis)
    ensures Answer(Pending([], LOW_OFFER), createdAt) == Ok(LowRow(createdAt))
  {
    assert Recent([], 0) == [];
  }

  lemma {:induction false} ClockedStep(events: seq<Event>, event: Event)
    requires Clocked(events)
    requires event.Read? ==>
        event.request.readAt <= event.request.checkAt && Before(Run(events).rows, event.request.readAt)
    requires event.Write? ==> event.id in Run(events).pending
                              && Run(events).pending[event.id].request.checkAt <= event.createdAt
                                  && Before(Run(events).rows, event.createdAt)
    ensures Clocked(events + [event]) && Run(events + [event]) == Step(Run(events), event)
  {
    assert (events + [event])[..|events|] == events;
  }

  function FourReads(): seq<Event> { [Read(0, LOW_OFFER), Read(1, LOW_OFFER), Read(2, LOW_OFFER), Read(3, LOW_OFFER)] }

  function Waiting(): Pending { Pending([], LOW_OFFER) }

  lemma {:induction false} OneMoreRead(events: seq<Event>, pending: map<nat, Pending>, id: nat)
    requires Clocked(events) && Run(events) == Desk([], pending) && id !in pending
    ensures Clocked(events + [Read(id, LOW_OFFER)])
    ensures Run(events + [Read(id, LOW_OFFER)]) == Desk([], pending[id := Waiting()])
  {
    hide Run, Clocked;
    ClockedStep(events, Read(id, LOW_OFFER));
  }

  lemma {:induction false} FourHaveRead()
    ensures Clocked(FourReads())
    ensures Run(FourReads()) == Desk([], map[0 := Waiting(), 1 := Waiting(), 2 := Waiting(), 3 := Waiting()])
  {
    assert Clocked([]) && Run([]) == OPEN;
    hide Run, Clocked, Waiting;
    var e1: seq<Event> := [] + [Read(0, LOW_OFFER)];
    var e2 := e1 + [Read(1, LOW_OFFER)];
    var e3 := e2 + [Read(2, LOW_OFFER)];
    OneMoreRead([], map[], 0);
    OneMoreRead(e1, map[0 := Waiting()], 1);
    OneMoreRead(e2, map[0 := Waiting(), 1 := Waiting()], 2);
    OneMoreRead(e3, map[0 := Waiting(), 1 := Waiting(), 2 := Waiting()], 3);
    assert FourReads() == e3 + [Read(3, LOW_OFFER)];
  }

  /** Two requests that read before either wrote, written a second apart: both pass, and the cooldown is broken. */
  lemma {:induction false} SideBySideBeatsTheCooldown()
    ensures
      var events := FourReads() + [Write(0, 0)] + [Write(1, 1_000)];
      Clocked(events) && Run(events).rows == [LowRow(0), LowRow(1_000)] && !Spaced(Run(events).rows)
  {
    FourHaveRead();
    LowOfferIsAnswered(0);
    LowOfferIsAnswered(1_000);
    hide Run, Clocked, Answer;
    var e1 := FourReads() + [Write(0, 0)];
    ClockedStep(FourReads(), Write(0, 0));
    assert Run(e1).rows == [LowRow(0)];
    ClockedStep(e1, Write(1, 1_000));
    var rows := Run(e1 + [Write(1, 1_000)]).rows;
    assert rows[0] == LowRow(0) && rows[1] == LowRow(1_000);
  }

  /**
   * Four requests that read before any wrote, written any little while apart: all
   * pass, and one 24 hours hold four offers. Five minutes apart, even the cooldown is kept.
   */
  lemma {:induction false} SideBySideBeatsTheCap(gap: nat)
    requires 3 * gap < 86_400_000
    ensures
      var events := FourReads() + [Write(0, 0)] + [Write(1, gap)] + [Write(2, 2 * gap)] + [Write(3, 3 * gap)];
      var rows := Run(events).rows;
      && Clocked(events)
      && rows == [LowRow(0), LowRow(gap), LowRow(2 * gap), LowRow(3 * gap)]
      && Probes(rows, 3 * gap) == 4
      && (gap >= 300_000 ==> Spaced(rows))
  {
    FourHaveRead();
    LowOfferIsAnswered(0);
    LowOfferIsAnswered(gap);
    LowOfferIsAnswered(2 * gap);
    LowOfferIsAnswered(3 * gap);
    hide Run, Clocked, Answer, Probes, Spaced;
    var e1 := FourReads() + [Write(0, 0)];
    var e2 := e1 + [Write(1, gap)];
    var e3 := e2 + [Write(2, 2 * gap)];
    var e4 := e3 + [Write(3, 3 * gap)];
    ClockedStep(FourReads(), Write(0, 0));
    assert Run(e1).rows == [LowRow(0)];
    ClockedStep(e1, Write(1, gap));
    assert Run(e2).rows == [LowRow(0), LowRow(gap)];
    ClockedStep(e2, Write(2, 2 * gap));
    assert Run(e3).rows == [LowRow(0), LowRow(gap), LowRow(2 * gap)];
    ClockedStep(e3, Write(3, 3 * gap));
    assert Run(e4).rows == [LowRow(0), LowRow(gap), LowRow(2 * gap), LowRow(3 * gap)];
    FourLowRows(gap);
  }

  lemma {:induction false} FourLowRows(gap: nat)
    requires 3 * gap < 86_400_000
    ensures
      var rows := [LowRow(0), LowRow(gap), LowRow(2 * gap), LowRow(3 * gap)];
      Probes(rows, 3 * gap) == 4 && (gap >= 300_000 ==> Spaced(rows))
  {
    var rows := [LowRow(0), LowRow(gap), LowRow(2 * gap), LowRow(3 * gap)];
    var t := 3 * gap;
    assert rows[..3] == [LowRow(0), LowRow(gap), LowRow(2 * gap)];
    assert rows[..3][..2] == [LowRow(0), LowRow(gap)];
    assert rows[..3][..2][..1] == [LowRow(0)];
    assert [LowRow(0)][..0] == [];
    assert Probes([], t) == 0;
    assert Probes([LowRow(0)], t) == 1;
    assert Probes(rows[..3][..2], t) == 2;
    assert Probes(rows[..3], t) == 3;
  }

  // ---- A counter is honoured ----

  predicate Counters(row: Row) { row.decision == COUNTERED && row.counterAmount.Some? }

  /** This offer's counter is the one on the table: the newest, and of the last 24 hours. */
  ghost predicate Stands(rows: seq<Row>, k: nat, readAt: Millis) {
    && k < |rows| && Counters(rows[k]) && rows[k].createdAt > readAt - 86_400_000
    && forall j | k < j < |rows| :: !Counters(rows[j])
  }

  lemma {:induction false} StandingCounter(rows: seq<Row>, k: nat, readAt: Millis)
    requires Stands(rows, k, readAt)
    ensures FindOutstandingCounter(Recent(rows, readAt)) == rows[k].counterAmount
    decreases |rows|
  {
    var last := |rows| - 1;
    var rest := Recent(rows[..last], readAt);
    if k < last {
      StandingCounter(rows[..last], k, readAt);
      assert ([rows[last]] + rest)[1..] == rest;
      assert Recent(rows, readAt) == rest || Recent(rows, readAt) == [rows[last]] + rest;
    }
  }

  ghost predicate InOrder(rows: seq<Row>) {
    forall i, j | 0 <= i < j < |rows| :: rows[i].createdAt <= rows[j].createdAt
  }

  lemma {:induction false} NoCounterStands(rows: seq<Row>, readAt: Millis)
    requires InOrder(rows) && forall k: nat :: !Stands(rows, k, readAt)
    ensures FindOutstandingCounter(Recent(rows, readAt)) == None
    decreases |rows|
  {
    if rows != [] {
      var last := |rows| - 1;
      if rows[last].createdAt <= readAt - 86_400_000 {
        NothingRecent(rows, readAt);
      } else {
        assert !Stands(rows, last, readAt);
        forall k: nat
          ensures !Stands(rows[..last], k, readAt)
        {
          assert !Stands(rows, k, readAt);
        }
        NoCounterStands(rows[..last], readAt);
        assert ([rows[last]] + Recent(rows[..last], readAt))[1..] == Recent(rows[..last], readAt);
      }
    }
  }

  /** Of rows in order of time, n or more are in the window exactly when the n-th newest is. */
  lemma {:induction false} WindowHoldsAtLeast(rows: seq<Row>, readAt: Millis, n: nat)
    requires InOrder(rows) && n >= 1
    ensures |Recent(rows, readAt)| >= n <==> |rows| >= n && rows[|rows| - n].createdAt > readAt - 86_400_000
    decreases |rows|
  {
    if rows != [] {
      var last := |rows| - 1;
      if rows[last].createdAt <= readAt - 86_400_000 {
        NothingRecent(rows, readAt);
      } else if n > 1 {
        WindowHoldsAtLeast(rows[..last], readAt, n - 1);
      }
    }
  }

  /** The offer meets the counter on the table. */
  ghost predicate Meets(rows: seq<Row>, request: Request) {
    exists k: nat :: Stands(rows, k, request.readAt) && request.amount >= rows[k].counterAmount.value
  }

  /** The newest offer of the last 24 hours is less than five minutes old. */
  predicate TooSoon(rows: seq<Row>, request: Request) {
    rows != []
    && rows[|rows| - 1].createdAt > request.readAt - 86_400_000
    && request.checkAt - rows[|rows| - 1].createdAt < 300_000
  }

  /** Three offers or more were made in the last 24 hours. */
  predicate TooMany(rows: seq<Row>, request: Request) {
    |rows| >= 3 && rows[|rows| - 3].createdAt > request.readAt - 86_400_000
  }

  /**
   * What a request is answered, over rows in order of time: each refusal exactly when, and the row
   * written otherwise.
   */
  ghost predicate AnsweredRight(rows: seq<Row>, request: Request, r: Result<Row, Refusal>) {
    var listing := request.listing;
    var open := listing.active && !listing.ownedByBuyer && listing.floor.Some?;
    var meets := Meets(rows, request);
    && (r == Err(ListingNotFound) <==> !listing.active)
    && (r == Err(OwnListing) <==> listing.active && listing.ownedByBuyer)
    && (r == Err(NoOffersTaken) <==> listing.active && !listing.ownedByBuyer && listing.floor.None?)
    && (r == Err(CoolingDown) <==> open && !meets && TooSoon(rows, request))
    && (r == Err(DailyCapReached) <==> open && !meets && !TooSoon(rows, request) && TooMany(rows, request))
    && (r.Ok? <==> open && (meets || (!TooSoon(rows, request) && !TooMany(rows, request))))
    && (r.Ok? ==> WrittenRight(request, meets, r.value))
  }

  /**
   * The row of an offer that was judged: rejected, accepted or countered exactly when, with its
   * counter and its expiry.
   */
  predicate WrittenRight(request: Request, meets: bool, row: Row) {
    var listing := request.listing;
    && listing.floor.Some?
    && row.createdAt == request.createdAt && row.quantity == request.quantity && row.amount == request.amount
    && row.metCounter == meets
    && (row.decision == REJECTED <==> request.quantity > listing.stockQty || request.amount < listing.floor.value)
    && (row.decision == ACCEPTED <==>
          request.quantity <= listing.stockQty && request.amount >= listing.floor.value
          && (request.amount >= listing.price || meets))
    && row.counterAmount ==
         (if row.decision == COUNTERED then Some((request.amount + listing.price + 1) / 2) else None)
    && row.expiresAt == (if row.decision == ACCEPTED then Some(request.createdAt + 900_000) else None)
  }

  lemma {:induction false} OutstandingIs(rows: seq<Row>, request: Request)
    requires InOrder(rows)
    ensures
      var outstanding := FindOutstandingCounter(Recent(rows, request.readAt));
      Meets(rows, request) <==> outstanding.Some? && request.amount >= outstanding.value
  {
    hide Recent, FindOutstandingCounter;
    if exists k: nat :: Stands(rows, k, request.readAt) {
      var k: nat :| Stands(rows, k, request.readAt);
      StandingCounter(rows, k, request.readAt);
      forall l: nat | Stands(rows, l, request.readAt)
        ensures rows[l].counterAmount == rows[k].counterAmount
      {
        StandingCounter(rows, l, request.readAt);
      }
    } else {
      NoCounterStands(rows, request.readAt);
    }
  }

  lemma {:induction false} LimitIs(rows: seq<Row>, request: Request)
    requires InOrder(rows)
    ensures
      var limited := AssertWithinRateLimit(Recent(rows, request.readAt), request.checkAt);
      && (limited == Some(CoolingDown) <==> TooSoon(rows, request))
      && (limited == Some(DailyCapReached) <==> !TooSoon(rows, request) && TooMany(rows, request))
      && (limited == None <==> !TooSoon(rows, request) && !TooMany(rows, request))
  {
    WindowHoldsAtLeast(rows, request.readAt, 1);
    WindowHoldsAtLeast(rows, request.readAt, 3);
    if rows != [] { NewestOfWindow(rows, request.readAt); }
    hide Recent;
  }

  lemma {:induction false} NewestOfWindow(rows: seq<Row>, readAt: Millis)
    requires rows != []
    ensures rows[|rows| - 1].createdAt > readAt - 86_400_000 ==>
        Recent(rows, readAt) != [] && Recent(rows, readAt)[0] == rows[|rows| - 1]
  {
  }

  /**
   * An offer on somebody else's open listing that takes offers is refused exactly
   * when it meets no counter on the table and comes too soon after the newest, or
   * after three in 24 hours; any other is judged and written as it should be.
   */
  lemma {:induction false} OffersAreAnsweredExactlyWhen(rows: seq<Row>, request: Request)
    requires InOrder(rows)
    ensures AnsweredRight(rows, request, Negotiate(rows, request))
  {
    OutstandingIs(rows, request);
    LimitIs(rows, request);
    hide Recent, FindOutstandingCounter, AssertWithinRateLimit, Meets, TooSoon, TooMany;
  }

  /**
   * The price the negotiation itself proposed is accepted when it is offered back
   * within the window on an unchanged listing: no cooldown, no daily cap, and
   * offers refused in between do not withdraw it.
   */
  lemma {:induction false} CounterIsHonoured(earlier: seq<Row>, first: Request, row: Row, between: seq<Row>,
      second: Request)
    requires Negotiate(earlier, first) == Ok(row) && row.decision == COUNTERED
    requires forall j | 0 <= j < |between| :: between[j].decision != COUNTERED
    requires second.listing == first.listing && second.quantity <= second.listing.stockQty
    requires second.amount >= row.counterAmount.value
    requires second.readAt < row.createdAt + 86_400_000
    ensures
      var r := Negotiate(earlier + [row] + between, second);
      r.Ok? && r.value.decision == ACCEPTED && r.value.metCounter && r.value.amount >= second.listing.floor.value
      && r.value.expiresAt == Some(second.createdAt + 900_000)
  {
    hide Recent, FindOutstandingCounter;
    var rows := earlier + [row] + between;
    var k := |earlier|;
    assert rows[k] == row && row.counterAmount.Some?;
    assert forall j | k < j < |rows| :: rows[j] == between[j - k - 1];
    VerdictIsSafe(first.amount, first.listing.floor.value, first.listing.price, first.quantity, first.listing.stockQty,
                  FindOutstandingCounter(Recent(earlier, first.readAt)));
    StandingCounter(rows, k, second.readAt);
  }
}
