/** The timer: batches of fifty, earliest first, starting what is due and then settling what is over. */
module AuctionLifecycle {
  import opened AuctionRules
  import opened AuctionSteps
  import opened AuctionInvariant
  import opened AuctionRuns
  import opened AuctionDatabase

  const LIFECYCLE_BATCH_SIZE: nat := 50

  // ---- An ordered query ----

  /** Ascending by key, then by id. */
  predicate Before(key: map<AuctionId, Millis>, a: AuctionId, b: AuctionId)
    requires a in key && b in key
  {
    key[a] < key[b] || (key[a] == key[b] && a < b)
  }

  predicate Earliest(key: map<AuctionId, Millis>, ids: set<AuctionId>, x: AuctionId)
    requires ids <= key.Keys
  {
    x in ids && forall y | y in ids && y != x :: Before(key, x, y)
  }

  lemma {:induction false} EarliestExists(key: map<AuctionId, Millis>, ids: set<AuctionId>) returns (first: AuctionId)
    requires ids != {} && ids <= key.Keys
    ensures first in ids && Earliest(key, ids, first)
    decreases |ids|
  {
    first :| first in ids;
    var rest := ids - {first};
    if rest == {} {
      assert ids == {first};
    } else {
      var x := EarliestExists(key, rest);
      var other := first;
      assert forall y :: y in ids <==> y == other || y in rest;
      if Before(key, x, other) { first := x; }
      forall y | y in ids && y != first
        ensures Before(key, first, y)
      {
        assert y == other || y == x || Before(key, x, y);
      }
    }
  }

  function InOrder(key: map<AuctionId, Millis>, ids: set<AuctionId>): seq<AuctionId>
    requires ids <= key.Keys
    decreases |ids|
  {
    if ids == {} then []
    else
      assert exists x :: x in ids && Earliest(key, ids, x) by { var x := EarliestExists(key, ids); }
      var x :| x in ids && Earliest(key, ids, x);
      [x] + InOrder(key, ids - {x})
  }

  lemma {:induction false} EarliestComesFirst(key: map<AuctionId, Millis>, ids: set<AuctionId>)
    requires ids <= key.Keys && ids != {}
    ensures
      var r := InOrder(key, ids);
      r != [] && Earliest(key, ids, r[0]) && r == [r[0]] + InOrder(key, ids - {r[0]})
  {
    var x := EarliestExists(key, ids);
  }

  lemma {:induction false} InOrderMembers(key: map<AuctionId, Millis>, ids: set<AuctionId>)
    requires ids <= key.Keys
    ensures Distinct(InOrder(key, ids))
    ensures Members(InOrder(key, ids)) == ids
    decreases |ids|
  {
    if ids != {} {
      EarliestComesFirst(key, ids);
      var first := InOrder(key, ids)[0];
      var rest := InOrder(key, ids - {first});
      InOrderMembers(key, ids - {first});
      hide InOrder;
      assert first !in Members(rest);
      assert Members([first] + rest) == {first} + Members(rest);
    }
  }

  /** The query is sorted: every row comes before every row after it. */
  lemma {:induction false} InOrderIsSorted(key: map<AuctionId, Millis>, ids: set<AuctionId>, i: nat, j: nat)
    requires ids <= key.Keys && i < j < |InOrder(key, ids)|
    ensures InOrder(key, ids)[i] in ids && InOrder(key, ids)[j] in ids
        && Before(key, InOrder(key, ids)[i], InOrder(key, ids)[j])
    decreases |ids|
  {
    EarliestComesFirst(key, ids);
    var first := InOrder(key, ids)[0];
    InOrderMembers(key, ids - {first});
    if i == 0 {
      var rest := InOrder(key, ids - {first});
      assert rest[j - 1] in Members(rest);
    } else {
      InOrderIsSorted(key, ids - {first}, i - 1, j - 1);
    }
  }

  function Members(ids: seq<AuctionId>): set<AuctionId> {
    set x | x in ids
  }

  function FirstOf(ids: seq<AuctionId>, n: nat): seq<AuctionId> {
    if |ids| <= n then ids else ids[..n]
  }

  /** Of a set that comes before everything else in the query, the first n rows take n, or all of it. */
  lemma {:induction false} FirstOnesGo(key: map<AuctionId, Millis>, ids: set<AuctionId>, early: set<AuctionId>, n: nat)
    requires early <= ids <= key.Keys
    requires forall a, b | a in early && b in ids - early :: Before(key, a, b)
    ensures |early - Members(FirstOf(InOrder(key, ids), n))| == if |early| <= n then 0 else |early| - n
    decreases |ids|
  {
    hide Earliest, Before, FirstOf, Members;
    if n == 0 || early == {} {
      FirstNone(InOrder(key, ids), early, n);
    } else {
      EarliestComesFirst(key, ids);
      var first := InOrder(key, ids)[0];
      EarliestIsEarly(key, ids, early, first);
      FirstOnesGo(key, ids - {first}, early - {first}, n - 1);
      hide InOrder;
      FirstOneGoes(first, InOrder(key, ids - {first}), early, n);
    }
  }

  lemma {:induction false} FirstNone(all: seq<AuctionId>, early: set<AuctionId>, n: nat)
    requires n == 0 || early == {}
    ensures |early - Members(FirstOf(all, n))| == |early|
  {
    if n == 0 {
      assert FirstOf(all, 0) == [];
      assert early - Members(FirstOf(all, 0)) == early;
    } else {
      assert early - Members(FirstOf(all, n)) == {};
    }
  }

  lemma {:induction false} FirstOneGoes(first: AuctionId, rest: seq<AuctionId>, early: set<AuctionId>, n: nat)
    requires n > 0 && first in early
    ensures early - Members(FirstOf([first] + rest, n)) == (early - {first}) - Members(FirstOf(rest, n - 1))
  {
    hide FirstOf, Members;
    TakeOne(first, rest, n);
  }

  lemma {:induction false} EarliestIsEarly(key: map<AuctionId, Millis>, ids: set<AuctionId>, early: set<AuctionId>,
      first: AuctionId)
    requires early <= ids <= key.Keys && early != {}
    requires forall a, b | a in early && b in ids - early :: Before(key, a, b)
    requires Earliest(key, ids, first)
    ensures first in early
  {
    var e :| e in early;
    assert first != e ==> Before(key, first, e);
    assert first in ids - early ==> Before(key, e, first);
  }

  lemma {:induction false} TakeOne(first: AuctionId, rest: seq<AuctionId>, n: nat)
    requires n > 0
    ensures Members(FirstOf([first] + rest, n)) == {first} + Members(FirstOf(rest, n - 1))
  {
    assert FirstOf([first] + rest, n) == [first] + FirstOf(rest, n - 1);
  }

  // ---- What a pass does ----

  function Deadlines(lots: map<AuctionId, Lot>): map<AuctionId, Millis> {
    map a | a in lots && lots[a].row.currentEndAt.Some? :: lots[a].row.currentEndAt.value
  }

  function Openings(lots: map<AuctionId, Lot>): map<AuctionId, Millis> {
    map a | a in lots && lots[a].row.terms.scheduledStartAt.Some? :: lots[a].row.terms.scheduledStartAt.value
  }

  /** Running auctions whose deadline has passed. */
  function Overdue(lots: map<AuctionId, Lot>, now: Millis): set<AuctionId> {
    set a | a in lots && DueToSettle(lots[a].row, now)
  }

  function DueToStart(lots: map<AuctionId, Lot>, now: Millis): set<AuctionId> {
    set a | a in lots && lots[a].row.status == SCHEDULED && lots[a].row.currentEndAt.Some?
            && lots[a].row.terms.scheduledStartAt.Some? && lots[a].row.terms.scheduledStartAt.value <= now
  }

  function SettleBatch(lots: map<AuctionId, Lot>, now: Millis): seq<AuctionId> {
    FirstOf(InOrder(Deadlines(lots), Overdue(lots, now)), LIFECYCLE_BATCH_SIZE)
  }

  function StartBatch(lots: map<AuctionId, Lot>, now: Millis): seq<AuctionId> {
    FirstOf(InOrder(Openings(lots), DueToStart(lots, now)), LIFECYCLE_BATCH_SIZE)
  }

  /** Settles one after the other; the i-th settlement reads the clock for itself. */
  ghost function SettleAll(db: Db, ids: seq<AuctionId>, clock: nat -> Millis): Db {
    if ids == [] then db
    else
      var last := |ids| - 1;
      WithOp(SettleAll(db, ids[..last], clock), ids[last], Settle(clock(last)))
  }

  ghost function StartAll(db: Db, ids: seq<AuctionId>, now: Millis): Db {
    if ids == [] then db
    else WithOp(StartAll(db, ids[..|ids| - 1], now), ids[|ids| - 1], Start(now))
  }

  datatype Tick = Tick(startNow: Millis, settleNow: Millis, clock: nat -> Millis)

  ghost function Pass(db: Db, tick: Tick): Db {
    var started := StartAll(db, StartBatch(db.lots, tick.startNow), tick.startNow);
    SettleAll(started, SettleBatch(started.lots, tick.settleNow), tick.clock)
  }

  ghost function Passes(db: Db, ticks: seq<Tick>): Db {
    if ticks == [] then db else Pass(Passes(db, ticks[..|ticks| - 1]), ticks[|ticks| - 1])
  }

  // ---- The backlog ----

  /** Auctions whose deadline was at or before this instant and that are still open: running, or never even started. */
  function Late(lots: map<AuctionId, Lot>, instant: Millis): set<AuctionId> {
    set a | a in lots && (lots[a].row.status == ACTIVE || lots[a].row.status == SCHEDULED)
            && lots[a].row.currentEndAt.Some? && lots[a].row.currentEndAt.value <= instant
  }

  /** No auction still waiting to start had its deadline by this instant. */
  ghost predicate NoneWaiting(lots: map<AuctionId, Lot>, instant: Millis) {
    forall a | a in lots && lots[a].row.status == SCHEDULED && lots[a].row.currentEndAt.Some? ::
      lots[a].row.currentEndAt.value > instant
  }

  lemma {:induction false} SettleOne(db: Db, id: AuctionId, now: Millis)
    requires id in db.lots
    ensures
      var after := WithOp(db, id, Settle(now));
      && after.lots.Keys == db.lots.Keys
      && (forall a | a in db.lots && a != id :: after.lots[a] == db.lots[a])
      && (after.lots[id].row.status == ACTIVE ==> !DueToSettle(db.lots[id].row, now))
      && (after.lots[id].row.status == SCHEDULED ==> after.lots[id] == db.lots[id])
      && (!DueToSettle(db.lots[id].row, now) ==> after.lots[id] == db.lots[id])
  {
    hide Leader, EndedRecipients, NoticesTo;
  }

  /** Only the lots in this batch changed, and none of them is running or waiting any more. */
  ghost predicate Batched(before: map<AuctionId, Lot>, after: map<AuctionId, Lot>, ids: seq<AuctionId>) {
    && after.Keys == before.Keys
    && (forall a | a in before && a !in ids :: after[a] == before[a])
    && (forall a | a in ids :: a in after && after[a].row.status != ACTIVE && after[a].row.status != SCHEDULED)
  }

  lemma {:induction false} BatchGrows(db: Db, between: Db, ids: seq<AuctionId>, id: AuctionId, now: Millis)
    requires id in db.lots && DueToSettle(db.lots[id].row, now)
    requires Batched(db.lots, between.lots, ids)
    ensures Batched(db.lots, WithOp(between, id, Settle(now)).lots, ids + [id])
  {
    hide WithOp;
    SettleOne(between, id, now);
    assert forall a :: a in ids + [id] <==> a in ids || a == id;
  }

  ghost predicate AllDue(lots: map<AuctionId, Lot>, ids: seq<AuctionId>, now: Millis) {
    forall i | 0 <= i < |ids| :: ids[i] in lots && DueToSettle(lots[ids[i]].row, now)
  }

  lemma {:induction false} AllDueBut(lots: map<AuctionId, Lot>, ids: seq<AuctionId>, now: Millis, later: Millis)
    requires AllDue(lots, ids, now) && ids != [] && now <= later
    ensures AllDue(lots, ids[..|ids| - 1], now)
    ensures ids[|ids| - 1] in lots && DueToSettle(lots[ids[|ids| - 1]].row, later)
  {
  }

  lemma {:induction false} NothingBatched(lots: map<AuctionId, Lot>)
    ensures Batched(lots, lots, [])
  {
  }

  lemma {:induction false} BatchEffect(db: Db, ids: seq<AuctionId>, clock: nat -> Millis, now: Millis)
    requires AllDue(db.lots, ids, now) && forall i: nat :: clock(i) >= now
    ensures Batched(db.lots, SettleAll(db, ids, clock).lots, ids)
    decreases |ids|
  {
    hide WithOp, DueToSettle, AllDue, Batched;
    if ids == [] {
      NothingBatched(db.lots);
    } else {
      var last := |ids| - 1;
      AllDueBut(db.lots, ids, now, clock(last));
      BatchEffect(db, ids[..last], clock, now);
      BatchGrows(db, SettleAll(db, ids[..last], clock), ids[..last], ids[last], clock(last));
      assert ids == ids[..last] + [ids[last]];
    }
  }

  /** Settling a batch removes exactly that batch from what is overdue. */
  lemma {:induction false} BatchSettles(db: Db, ids: seq<AuctionId>, clock: nat -> Millis, now: Millis, instant: Millis)
    requires AllDue(db.lots, ids, now) && forall i: nat :: clock(i) >= now
    ensures
      var after := SettleAll(db, ids, clock).lots;
      && Overdue(after, instant) == Overdue(db.lots, instant) - Members(ids)
      && (NoneWaiting(db.lots, instant) ==> NoneWaiting(after, instant))
  {
    hide SettleAll, AllDue;
    BatchEffect(db, ids, clock, now);
  }

  lemma {:induction false} StartOneKeeps(db: Db, id: AuctionId, now: Millis, instant: Millis)
    requires NoneWaiting(db.lots, instant)
    ensures NoneWaiting(WithOp(db, id, Start(now)).lots, instant)
    ensures Overdue(WithOp(db, id, Start(now)).lots, instant) == Overdue(db.lots, instant)
  {
  }

  lemma {:induction false} StartingKeeps(db: Db, ids: seq<AuctionId>, now: Millis, instant: Millis)
    requires NoneWaiting(db.lots, instant)
    ensures NoneWaiting(StartAll(db, ids, now).lots, instant)
    ensures Overdue(StartAll(db, ids, now).lots, instant) == Overdue(db.lots, instant)
    decreases |ids|
  {
    hide WithOp, NoneWaiting, Overdue;
    if ids != [] {
      StartingKeeps(db, ids[..|ids| - 1], now, instant);
      StartOneKeeps(StartAll(db, ids[..|ids| - 1], now), ids[|ids| - 1], now, instant);
    }
  }

  lemma {:induction false} BatchIsDue(lots: map<AuctionId, Lot>, now: Millis)
    ensures AllDue(lots, SettleBatch(lots, now), now)
    ensures Distinct(SettleBatch(lots, now))
  {
    hide InOrder;
    InOrderMembers(Deadlines(lots), Overdue(lots, now));
    var all := InOrder(Deadlines(lots), Overdue(lots, now));
    forall i | 0 <= i < |SettleBatch(lots, now)|
      ensures SettleBatch(lots, now)[i] in Overdue(lots, now)
    {
      assert all[i] in Members(all);
    }
  }

  // ---- Starting a batch ----

  /** Only the lots in this batch changed: they run now, on the terms and to the deadline they had. */
  ghost predicate Opened(before: map<AuctionId, Lot>, after: map<AuctionId, Lot>, ids: seq<AuctionId>) {
    && after.Keys == before.Keys
    && (forall a | a in before && a !in ids :: after[a] == before[a])
    && (forall a | a in ids ::
          && a in before && before[a].row.status == SCHEDULED && after[a].row.status == ACTIVE
          && after[a].row.currentEndAt == before[a].row.currentEndAt && after[a].row.terms == before[a].row.terms)
  }

  lemma {:induction false} OpenOne(db: Db, id: AuctionId, now: Millis)
    requires id in DueToStart(db.lots, now)
    ensures OpStep(db.lots[id], Start(now), db.categories).Ok?
    ensures Opened(db.lots, WithOp(db, id, Start(now)).lots, [id])
  {
  }

  lemma {:induction false} OpenOneMore(before: Db, between: Db, ids: seq<AuctionId>, id: AuctionId, now: Millis)
    requires id in DueToStart(before.lots, now) && id !in ids
    requires Opened(before.lots, between.lots, ids)
    ensures id in between.lots && OpStep(between.lots[id], Start(now), between.categories).Ok?
    ensures Opened(before.lots, WithOp(between, id, Start(now)).lots, ids + [id])
  {
    assert id in DueToStart(between.lots, now);
    hide WithOp, OpStep, DueToStart;
    OpenOne(between, id, now);
    assert forall a :: a in ids + [id] <==> a in ids || a == id;
    OpenedJoin(before.lots, between.lots, WithOp(between, id, Start(now)).lots, ids, id);
  }

  lemma {:induction false} OpenedJoin(before: map<AuctionId, Lot>, between: map<AuctionId, Lot>,
      after: map<AuctionId, Lot>, ids: seq<AuctionId>, id: AuctionId)
    requires Opened(before, between, ids) && Opened(between, after, [id]) && id !in ids
    ensures Opened(before, after, ids + [id])
  {
    assert forall a :: a in ids + [id] <==> a in ids || a == id;
    assert forall a :: a in [id] <==> a == id;
  }

  /** Starting a list of due auctions starts each of them. */
  lemma {:induction false} StartsEach(db: Db, ids: seq<AuctionId>, now: Millis)
    requires Distinct(ids) && forall i | 0 <= i < |ids| :: ids[i] in DueToStart(db.lots, now)
    ensures Opened(db.lots, StartAll(db, ids, now).lots, ids)
    decreases |ids|
  {
    hide WithOp, DueToStart, Opened;
    if ids == [] {
      assert Opened(db.lots, db.lots, ids) by { NothingOpened(db.lots); }
    } else {
      var last := |ids| - 1;
      StartsEach(db, ids[..last], now);
      assert ids[last] !in ids[..last];
      OpenOneMore(db, StartAll(db, ids[..last], now), ids[..last], ids[last], now);
      assert ids == ids[..last] + [ids[last]];
    }
  }

  lemma {:induction false} NothingOpened(lots: map<AuctionId, Lot>)
    ensures Opened(lots, lots, [])
  {
  }

  lemma {:induction false} StartBatchIsDue(lots: map<AuctionId, Lot>, now: Millis)
    ensures Distinct(StartBatch(lots, now))
    ensures forall i | 0 <= i < |StartBatch(lots, now)| :: StartBatch(lots, now)[i] in DueToStart(lots, now)
  {
    hide InOrder, DueToStart, Openings;
    assert DueToStart(lots, now) <= Openings(lots).Keys by { DueOnesOpen(lots, now); }
    InOrderMembers(Openings(lots), DueToStart(lots, now));
    var all := InOrder(Openings(lots), DueToStart(lots, now));
    forall i | 0 <= i < |StartBatch(lots, now)|
      ensures StartBatch(lots, now)[i] in DueToStart(lots, now)
    {
      assert all[i] in Members(all);
    }
  }

  lemma {:induction false} DueOnesOpen(lots: map<AuctionId, Lot>, now: Millis)
    ensures DueToStart(lots, now) <= Openings(lots).Keys
  {
  }

  /** A started batch is no longer due to start, and nothing stops being late. */
  lemma {:induction false} OpenedCounts(before: map<AuctionId, Lot>, after: map<AuctionId, Lot>, ids: seq<AuctionId>,
      instant: Millis)
    requires Opened(before, after, ids)
    ensures DueToStart(after, instant) == DueToStart(before, instant) - Members(ids)
    ensures Late(after, instant) == Late(before, instant)
  {
  }

  /** Settling a batch takes it off what is late, and touches nothing that waits to start. */
  lemma {:induction false} SettledCounts(db: Db, ids: seq<AuctionId>, clock: nat -> Millis, now: Millis,
      instant: Millis)
    requires AllDue(db.lots, ids, now) && forall i: nat :: clock(i) >= now
    ensures
      var after := SettleAll(db, ids, clock).lots;
      && Late(after, instant) == Late(db.lots, instant) - Members(ids)
      && DueToStart(after, instant) == DueToStart(db.lots, instant)
  {
    hide SettleAll;
    BatchEffect(db, ids, clock, now);
    forall a | a in ids
      ensures a in db.lots && db.lots[a].row.status == ACTIVE
    {
    }
  }

  // ---- Only what is due to start can be late without running ----

  lemma {:induction false} ScheduledRow(lot: Lot)
    requires LotInv(lot) && lot.row.status == SCHEDULED
    ensures
      && lot.row.terms.scheduledStartAt.Some? && lot.row.currentEndAt.Some?
      && lot.row.terms.scheduledStartAt.value < lot.row.currentEndAt.value
  {
    hide Ledger, LogAgrees, Gallery, Told, Distinct;
  }

  /** Once nothing is due to start by an instant, all that is late by it is running. */
  lemma {:induction false} LateOnesRun(db: Db, instant: Millis)
    requires DbInv(db) && DueToStart(db.lots, instant) == {}
    ensures Late(db.lots, instant) == Overdue(db.lots, instant)
    ensures NoneWaiting(db.lots, instant)
  {
    hide LotInv, IndexFaithful;
    forall a | a in db.lots && db.lots[a].row.status == SCHEDULED
      ensures db.lots[a].row.currentEndAt.Some? && db.lots[a].row.currentEndAt.value > instant
    {
      ScheduledRow(db.lots[a]);
      assert a !in DueToStart(db.lots, instant);
    }
  }

  lemma {:induction false} StartAllKeeps(db: Db, ids: seq<AuctionId>, now: Millis)
    requires DbInv(db)
    ensures DbInv(StartAll(db, ids, now))
    decreases |ids|
  {
    hide DbInv, WithOp, DbEvolves;
    if ids != [] {
      StartAllKeeps(db, ids[..|ids| - 1], now);
      WithOpKeeps(StartAll(db, ids[..|ids| - 1], now), ids[|ids| - 1], Start(now));
    }
  }

  lemma {:induction false} SettleAllKeeps(db: Db, ids: seq<AuctionId>, clock: nat -> Millis)
    requires DbInv(db)
    ensures DbInv(SettleAll(db, ids, clock))
    decreases |ids|
  {
    hide DbInv, WithOp, DbEvolves;
    if ids != [] {
      var last := |ids| - 1;
      SettleAllKeeps(db, ids[..last], clock);
      WithOpKeeps(SettleAll(db, ids[..last], clock), ids[last], Settle(clock(last)));
    }
  }

  // ---- A pass ----

  ghost predicate WellTimed(tick: Tick, instant: Millis) {
    instant <= tick.settleNow && forall i: nat :: tick.clock(i) >= tick.settleNow
  }

  function LessFifty(n: nat): nat {
    if n <= 50 then 0 else n - 50
  }

  /** The first half of a pass takes fifty off what was due to start by an earlier instant, or all of it. */
  lemma {:induction false} StartingClears(db: Db, now: Millis, instant: Millis)
    requires instant <= now
    ensures
      var started := StartAll(db, StartBatch(db.lots, now), now).lots;
      && |DueToStart(started, instant)| == LessFifty(|DueToStart(db.lots, instant)|)
      && Late(started, instant) == Late(db.lots, instant)
  {
    var ids := StartBatch(db.lots, now);
    StartBatchIsDue(db.lots, now);
    StartsEach(db, ids, now);
    OpenedCounts(db.lots, StartAll(db, ids, now).lots, ids, instant);
    EarlyFirst(db.lots, now, instant);
    hide StartAll, InOrder, Late, DueToStart, Openings, Opened, Before;
    FirstOnesGo(Openings(db.lots), DueToStart(db.lots, now), DueToStart(db.lots, instant), LIFECYCLE_BATCH_SIZE);
  }

  lemma {:induction false} EarlyFirst(lots: map<AuctionId, Lot>, now: Millis, instant: Millis)
    requires instant <= now
    ensures DueToStart(lots, instant) <= DueToStart(lots, now) <= Openings(lots).Keys
    ensures forall a, b | a in DueToStart(lots, instant) && b in DueToStart(lots, now) - DueToStart(lots, instant) ::
              Before(Openings(lots), a, b)
  {
  }

  lemma {:induction false} EarlyOverdueFirst(lots: map<AuctionId, Lot>, now: Millis, instant: Millis)
    requires instant <= now
    ensures Overdue(lots, instant) <= Overdue(lots, now) <= Deadlines(lots).Keys
    ensures forall a, b | a in Overdue(lots, instant) && b in Overdue(lots, now) - Overdue(lots, instant) ::
              Before(Deadlines(lots), a, b)
  {
  }

  /** The second half takes at most fifty off what is late, and fifty or all of it once everything late is running. */
  lemma {:induction false} SettlingClears(db: Db, tick: Tick, instant: Millis)
    requires WellTimed(tick, instant) && DbInv(db)
    ensures
      var settled := SettleAll(db, SettleBatch(db.lots, tick.settleNow), tick.clock).lots;
      var n := |Late(db.lots, instant)|;
      && DueToStart(settled, instant) == DueToStart(db.lots, instant)
      && n - 50 <= |Late(settled, instant)| <= n
      && (DueToStart(db.lots, instant) == {} ==> |Late(settled, instant)| == LessFifty(n))
  {
    var ids := SettleBatch(db.lots, tick.settleNow);
    BatchIsDue(db.lots, tick.settleNow);
    SettledCounts(db, ids, tick.clock, tick.settleNow, instant);
    if DueToStart(db.lots, instant) == {} { LateOnesRun(db, instant); }
    EarlyOverdueFirst(db.lots, tick.settleNow, instant);
    hide SettleAll, InOrder, Late, DueToStart, Deadlines, Overdue, AllDue, Before, DbInv;
    AtMost(ids);
    assert |Late(db.lots, instant)|
        == |Late(db.lots, instant) - Members(ids)| + |Late(db.lots, instant) * Members(ids)|;
    Fewer(Late(db.lots, instant) * Members(ids), Members(ids));
    FirstOnesGo(Deadlines(db.lots), Overdue(db.lots, tick.settleNow), Overdue(db.lots, instant), LIFECYCLE_BATCH_SIZE);
  }

  lemma {:induction false} AtMost(ids: seq<AuctionId>)
    ensures |Members(ids)| <= |ids|
    decreases |ids|
  {
    if ids == [] {
      assert Members(ids) == {};
    } else {
      var rest := ids[..|ids| - 1];
      AtMost(rest);
      assert ids == rest + [ids[|ids| - 1]];
      assert Members(ids) == Members(rest) + {ids[|ids| - 1]};
    }
  }

  lemma {:induction false} Fewer(part: set<AuctionId>, whole: set<AuctionId>)
    requires part <= whole
    ensures |part| <= |whole|
  {
    assert whole == part + (whole - part);
  }

  /**
   * One pass, from any database the services produce, whatever fell due since the
   * instant: fifty fewer are waiting to start, or none; at most fifty fewer are
   * late; and exactly fifty fewer, or none, if one batch could start all that waited.
   */
  lemma {:induction false} PassClears(db: Db, tick: Tick, instant: Millis)
    requires DbInv(db) && WellTimed(tick, instant) && instant <= tick.startNow
    ensures DbInv(Pass(db, tick))
    ensures
      var after := Pass(db, tick).lots;
      var m, n := |DueToStart(db.lots, instant)|, |Late(db.lots, instant)|;
      && |DueToStart(after, instant)| == LessFifty(m)
      && n - 50 <= |Late(after, instant)| <= n
      && (m <= 50 ==> |Late(after, instant)| == LessFifty(n))
  {
    var ids := StartBatch(db.lots, tick.startNow);
    var started := StartAll(db, ids, tick.startNow);
    hide DbInv, SettleAll, StartAll, WellTimed, Late, DueToStart, StartBatch, SettleBatch;
    StartAllKeeps(db, ids, tick.startNow);
    StartingClears(db, tick.startNow, instant);
    SettlingClears(started, tick, instant);
    SettleAllKeeps(started, SettleBatch(started.lots, tick.settleNow), tick.clock);
  }

  /** How many full batches must have started before the last of m is among those being started. */
  function FullBatchesBefore(m: nat): nat {
    if m == 0 then 0 else (m - 1) / 50
  }

  /** n / 50, rounded up. */
  function BatchesOf(n: nat): nat {
    (n + 49) / 50
  }

  function Remaining(n: nat, passes: int): nat {
    if passes <= 0 then n else if n <= 50 * passes then 0 else n - 50 * passes
  }

  /**
   * With nobody else writing, and after any outage: of the n auctions that had
   * ended by an instant and the m that should have started by it, k passes leave
   * exactly m - 50k waiting, and between n - 50k and n - 50(k - w) late, where w
   * is the number of full batches that start before the last of the m. So nothing
   * is late after w + n / 50 passes, rounded up; and with at most one batch
   * waiting the count is exact.
   */
  lemma {:induction false} BacklogClears(db: Db, ticks: seq<Tick>, instant: Millis)
    requires DbInv(db)
    requires forall i | 0 <= i < |ticks| :: WellTimed(ticks[i], instant) && instant <= ticks[i].startNow
    ensures DbInv(Passes(db, ticks))
    ensures
      var m, n, k := |DueToStart(db.lots, instant)|, |Late(db.lots, instant)|, |ticks|;
      var after := Passes(db, ticks).lots;
      && |DueToStart(after, instant)| == Remaining(m, k)
      && Remaining(n, k) <= |Late(after, instant)| <= Remaining(n, k - FullBatchesBefore(m))
      && (m <= 50 ==> |Late(after, instant)| == Remaining(n, k))
      && (k >= FullBatchesBefore(m) + BatchesOf(n) ==> Late(after, instant) == {})
    decreases |ticks|
  {
    hide DbInv, Pass, WellTimed, Late, DueToStart;
    if ticks != [] {
      BacklogClears(db, ticks[..|ticks| - 1], instant);
      PassClears(Passes(db, ticks[..|ticks| - 1]), ticks[|ticks| - 1], instant);
    }
  }

  /**
   * So once the passes are enough, no auction is left waiting that should have
   * started by the instant, and none is left open that should have ended by it.
   */
  lemma {:induction false} BacklogIsGone(db: Db, ticks: seq<Tick>, instant: Millis)
    requires DbInv(db)
    requires forall i | 0 <= i < |ticks| :: WellTimed(ticks[i], instant) && instant <= ticks[i].startNow
    requires |ticks| >= FullBatchesBefore(|DueToStart(db.lots, instant)|) + BatchesOf(|Late(db.lots, instant)|)
    requires 50 * |ticks| >= |DueToStart(db.lots, instant)|
    ensures forall a | a in Passes(db, ticks).lots ::
              var row := Passes(db, ticks).lots[a].row;
              && (row.status == SCHEDULED && row.terms.scheduledStartAt.Some? && row.currentEndAt.Some? ==>
                    row.terms.scheduledStartAt.value > instant)
              && ((row.status == ACTIVE || row.status == SCHEDULED) && row.currentEndAt.Some? ==>
                    row.currentEndAt.value > instant)
  {
    hide DbInv, Passes, WellTimed;
    BacklogClears(db, ticks, instant);
    var after := Passes(db, ticks).lots;
    assert DueToStart(after, instant) == {} && Late(after, instant) == {};
    forall a | a in after
      ensures a !in DueToStart(after, instant) && a !in Late(after, instant)
    {
    }
  }

  // ---- Where nothing waits ----

  /** One pass takes fifty off what was overdue at an earlier instant, however much fell due or started since. */
  lemma {:induction false} QuietPassClears(db: Db, tick: Tick, instant: Millis)
    requires NoneWaiting(db.lots, instant) && WellTimed(tick, instant)
    ensures NoneWaiting(Pass(db, tick).lots, instant)
    ensures |Overdue(Pass(db, tick).lots, instant)| == LessFifty(|Overdue(db.lots, instant)|)
  {
    hide SettleAll, StartAll, InOrder, WithOp;
    var started := StartAll(db, StartBatch(db.lots, tick.startNow), tick.startNow);
    StartingKeeps(db, StartBatch(db.lots, tick.startNow), tick.startNow, instant);
    var ids := SettleBatch(started.lots, tick.settleNow);
    BatchIsDue(started.lots, tick.settleNow);
    BatchSettles(started, ids, tick.clock, tick.settleNow, instant);
    EarlyOverdueFirst(started.lots, tick.settleNow, instant);
    hide Overdue, Deadlines, Before, NoneWaiting;
    FirstOnesGo(Deadlines(started.lots), Overdue(started.lots, tick.settleNow), Overdue(started.lots, instant),
        LIFECYCLE_BATCH_SIZE);
  }

  /**
   * Where no auction that waits to start has ended by the instant, k passes settle exactly 50k of the
   * overdue, or all.
   */
  lemma {:induction false} QuietBacklogClears(db: Db, ticks: seq<Tick>, instant: Millis)
    requires NoneWaiting(db.lots, instant)
    requires forall i | 0 <= i < |ticks| :: WellTimed(ticks[i], instant)
    ensures NoneWaiting(Passes(db, ticks).lots, instant)
    ensures |Overdue(Passes(db, ticks).lots, instant)| == Remaining(|Overdue(db.lots, instant)|, |ticks|)
    decreases |ticks|
  {
    hide NoneWaiting, Overdue, Pass, WellTimed;
    if ticks != [] {
      QuietBacklogClears(db, ticks[..|ticks| - 1], instant);
      QuietPassClears(Passes(db, ticks[..|ticks| - 1]), ticks[|ticks| - 1], instant);
    }
  }

  // ---- The service ----

  class LifecycleTimer {
    const database: Database
    var reconciling: bool

    constructor (database: Database)
      ensures this.database == database && !reconciling
    {
      this.database := database;
      reconciling := false;
    }

    method StartDueAuctions(now: Millis) returns (started: nat)
      requires database.Valid()
      modifies database
      ensures database.State() == StartAll(old(database.State()), StartBatch(old(database.lots), now), now)
      ensures database.Valid() && DbEvolves(old(database.State()), database.State())
      ensures started == |StartBatch(old(database.lots), now)| <= 50
    {
      hide DbInv, DbEvolves, WithOp, OpStep, InOrder, DueToStart, Opened;
      var due := StartBatch(database.lots, now);
      started := 0;
      SameDbEvolves(database.State());
      StartBatchIsDue(database.lots, now);
      for i := 0 to |due|
        invariant database.Valid() && DbEvolves(old(database.State()), database.State())
        invariant database.State() == StartAll(old(database.State()), due[..i], now)
        invariant started == i
      {
        ghost var before := database.State();
        StartsEach(old(database.State()), due[..i], now);
        assert due[i] !in due[..i];
        OpenOneMore(old(database.State()), database.State(), due[..i], due[i], now);
        var ok := database.StartOne(due[i], now);
        assert due[..i + 1][..i] == due[..i];
        DbEvolvesTransitive(old(database.State()), before, database.State());
        if ok { started := started + 1; }
      }
      assert due[..|due|] == due;
    }

    /** With nobody else writing, everything in the batch is settled. */
    method SettleDueAuctions(now: Millis, clock: nat -> Millis) returns (settled: nat)
      requires database.Valid()
      requires forall i: nat :: clock(i) >= now
      modifies database
      ensures database.State() == SettleAll(old(database.State()), SettleBatch(old(database.lots), now), clock)
      ensures database.Valid() && DbEvolves(old(database.State()), database.State())
      ensures settled == |SettleBatch(old(database.lots), now)|
    {
      hide DbInv, DbEvolves, WithOp, InOrder, SettleBatch, Overdue, NoneWaiting;
      var due := SettleBatch(database.lots, now);
      settled := 0;
      SameDbEvolves(database.State());
      BatchIsDue(database.lots, now);
      for i := 0 to |due|
        invariant database.Valid() && DbEvolves(old(database.State()), database.State())
        invariant database.State() == SettleAll(old(database.State()), due[..i], clock)
        invariant settled == i
      {
        ghost var before := database.State();
        assert AllDue(old(database.lots), due[..i], now);
        BatchEffect(old(database.State()), due[..i], clock, now);
        assert due[i] !in due[..i];
        var result := database.SettleInTransaction(due[i], clock(i));
        assert due[..i + 1][..i] == due[..i];
        DbEvolvesTransitive(old(database.State()), before, database.State());
        if result { settled := settled + 1; }
      }
      assert due[..|due|] == due;
    }

    /** One tick: nothing at all while the previous pass is still at work. */
    method ReconcileLifecycle(tick: Tick)
      requires database.Valid()
      requires forall i: nat :: tick.clock(i) >= tick.settleNow
      modifies this, database
      ensures reconciling == old(reconciling)
      ensures old(reconciling) ==> database.State() == old(database.State())
      ensures !old(reconciling) ==> database.State() == Pass(old(database.State()), tick)
      ensures database.Valid()
    {
      hide DbInv, DbEvolves, WithOp, InOrder, SettleBatch, StartBatch, SettleAll, StartAll;
      if reconciling { return; }
      reconciling := true;
      var started := StartDueAuctions(tick.startNow);
      var settled := SettleDueAuctions(tick.settleNow, tick.clock);
      reconciling := false;
    }
  }
}
