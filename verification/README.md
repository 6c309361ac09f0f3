# Verification of the marketplace's state machines

This project models the server side of an auction marketplace with a shop beside it: what one
auction goes through from draft to settlement while people bid against each other, what one
checkout goes through from pricing to parcel while sellers and admins write the same rows, how a
price is haggled over, and how the arena knows who is still connected. It states what the services
promise about those rows over every run, and proves it.

Money is integer satang, percent is integer hundredths, time is integer milliseconds, ids are
numbers (strings in the presence registry, where their spelling matters). A table is a map or a
sequence; an id that the database makes up is a parameter of the step that uses it.

## How it is laid out

| file | what it holds |
|---|---|
| `Wrappers.dfy` | `Option` and `Result` |
| `AuctionRules.dfy` | the auction's rows and the rules that write nothing: minimum bid, anti-sniping, leading bid, publish gate, audience |
| `AuctionSteps.dfy` | what each auction transaction writes; a bid is three phases (look up, judge on a snapshot, guarded commit) |
| `AuctionInvariant.dfy` | what every transaction keeps, one lemma per transaction and part |
| `AuctionRuns.dfy` | every interleaving of bid phases with sellers, admins, watchers and the clock; the inductive invariant |
| `AuctionAnswers.dfy` | when each request to an auction goes through, and every column it leaves, written out |
| `AuctionTheorems.dfy` | what follows for every reachable state |
| `AuctionDatabase.dfy` | the services as they run: loops and one write after another, each shown equal to its step |
| `AuctionLifecycle.dfy` | the timer: batches of fifty, earliest deadline first |
| `LineTotal.dfy`, `ShopRules.dfy` | cart line arithmetic, the checkout gate, grouping by seller, sums |
| `ShopSteps.dfy`, `ShopRuns.dfy` | shop transactions; a checkout is separate steps (redeem, price, charge, write orders) and a listing edit may be (read and judge, count, write), with anything between them |
| `ShopInvariant.dfy`, `ShopCommit.dfy`, `ShopReachable.dfy` | what every shop step keeps, races between edits included |
| `ShopAnswers.dfy` | when each request to the shop goes through, and every column it leaves, written out |
| `ShopTheorems.dfy`, `CheckoutOutcome.dfy` | what follows for every reachable shop |
| `ShopDatabase.dfy` | the shop's services as they run, rollback included |
| `ListingRaces.dfy` | the shelf under listing edits as they are, read first and written unguarded: exactly when that does no harm, and what then holds |
| `Market.dfy` | both sides over one database: a lot paid for was won |
| `Bargain.dfy` | haggling and checkout over one database: an agreed price that was paid was agreed to |
| `Negotiator.dfy`, `NegotiatorFacade.dfy` | counters, the rate limit over serial and interleaved runs, the service |
| `Presence.dfy`, `PresenceRegistry.dfy` | the two maps of the presence registry, and the class that writes them |

The proofs go from a transaction to a run to a theorem. A transaction is a function from a state to
a state. An invariant is kept by every transaction, so it holds in every state that any sequence of
actions reaches from an empty database. The theorems unfold it. The classes repeat the transactions
in the form the services have, and each method ends in the state its function says.

Unique indexes are guards that make an insert fail: request id, (auction, sequence number),
(auction, extension number), (session, seller), and the lot of an order item.

## Where the code and its words differ

- `apps/api/src/ai-tools/negotiator.service.ts:31-37` says repeated counters approach the asking
  price "without ever reaching it". In whole satang they do reach it: `Negotiator.CountersReachTheAskingPrice`
  says exactly when.
- `apps/api/src/realtime/presence-registry.ts:28-29` calls the count the number of sockets holding an
  auction open. That holds up to the first time a socket registers an auction again as somebody else,
  and never again after it: `Presence.AgreesExactlyWithoutSwaps`.
- `apps/api/src/order/checkout.service.ts:304-308` clears the cart lines it ordered but never asks
  whether they were still there, so two sessions can pay for one cart line. Both get their orders exactly
  when there is stock for the two together: `CheckoutOutcome.BothAreOrderedExactlyWhen`, and on a concrete
  cart `CheckoutOutcome.OneCartIsOrderedTwice`.
- `apps/api/src/product/product.service.ts:568-571` says a takedown is only enforceable if the seller
  cannot walk out of it. Every edit of a listing reads the row and later writes a status it worked out
  from that read, with no guard, so an edit under way walks out of a suspension, resumes a paused listing,
  brings a removed one back, and puts an empty one on sale: `ListingRaces.LateEditUndoesATakedown`. When it does no harm,
  edit by edit and over every run, is `ListingRaces.LateEditIsSafeExactlyWhen` and
  `ListingRaces.SplitEditsAreSafeExactlyWhen`.
- `apps/api/src/auction/auction.service.ts:620-623` guards settlement on the status alone. As one
  transaction it is right; were the read and the write to come apart it would lose a bid:
  `AuctionTheorems.SplitSettlementAgrees` and `AuctionTheorems.SplitSettlementLosesABid`.
- The rate limit of `apps/api/src/ai-tools/negotiator-facade.service.ts:274-290` holds for requests
  made one after the other. Side by side, requests that do not see each other pass it, and break the
  cooldown (`Negotiator.SideBySideBeatsTheCooldown`) or the cap (`Negotiator.SideBySideBeatsTheCap`).
  Over every interleaving it holds exactly when each offer had room as it was written:
  `Negotiator.LimitHoldsExactlyWhenEachHadRoom`.

## Model

| member | source | states |
|---|---|---|
| AuctionTheorems.BidClearsTheRowItReplaces | apps/api/src/bid/bid.service.ts:175-277 | In every reachable state a judged bid is recorded exactly when the row still has the version it judged and its request id is free; the row is then the very row it judged, still ACTIVE and before its end, and the amount is the starting price or more, or an increment above the last bid or more |
| AuctionTheorems.BidIsAcceptedExactlyWhen | apps/api/src/bid/bid.service.ts:175-222 | In every reachable state a bid gets past its judgement exactly when the auction is there and running, the bidder is not its seller, and the amount is the starting price or more, or, after a bid, an increment above the last one or more; each refusal exactly when, with the least amount it quotes |
| AuctionAnswers.MinimumIs | apps/api/src/bid/utils/calculate-minimum-bid.util.ts:24-28 | The minimum is the starting price before any bid and an increment above the last bid on record after |
| AuctionAnswers.JudgedExtends | apps/api/src/bid/utils/calculate-anti-sniping.util.ts:31-54 | An accepted bid extends exactly with two minutes or less left and fewer than five extensions on record, by two minutes from the current end |
| AuctionAnswers.ReplayedExactlyWhen | apps/api/src/bid/bid.service.ts:427-445 | A request id on record answers with its bid exactly for the same auction and amount, and otherwise says which differs |
| AuctionRuns.LosingCommit | apps/api/src/bid/bid.service.ts:259-277 | A commit that misses its guard writes nothing |
| AuctionRuns.ReachableInv | apps/api/src/bid/bid.service.ts:91-391 | The whole invariant over every interleaving of bids, sellers, admins, watchers and the clock; in it, a judged bid whose row still has the version it read has the very row it read |
| AuctionTheorems.LedgerHolds | apps/api/src/bid/bid.service.ts:216-303 | Sequence numbers run 1..bidCount, the first amount is at least the starting price, each later one is at least an increment above every earlier one, the price is the last amount, and the last bid leads |
| AuctionInvariant.LeaderIsLastBid | apps/api/src/bid/constants/leading-bid-order.constant.ts:13-16 | Amount descending, sequence ascending picks the last bid of a good ledger |
| AuctionRules.Leader | apps/api/src/bid/constants/leading-bid-order.constant.ts:13-16 | No bid beats the one the query returns first |
| AuctionRules.CalculateAntiSniping | apps/api/src/bid/utils/calculate-anti-sniping.util.ts:31-54 | An extension is granted exactly inside the last two minutes and below the cap, starts at the current end, is two minutes long and takes the next number |
| AuctionTheorems.RequestRecordedOnce | apps/api/src/bid/bid.service.ts:161-173 | A request id is in at most one bid over all auctions |
| AuctionTheorems.SameRequestSameBid | apps/api/src/bid/bid.service.ts:397-445 | Two attempts with one request id, auction and amount that are both answered with a bid are answered with the same one |
| AuctionTheorems.OnlyRecordingWrites | apps/api/src/bid/bid.service.ts:91-101 | A lookup, a judgement, a replay and a refusal leave the database as it was |
| AuctionTheorems.FourStepsAnswer | apps/api/src/bid/bid.service.ts:49-101 | Four steps of its own answer any attempt, whatever comes between them |
| AuctionTheorems.SettlementIsRightAndFinal | apps/api/src/auction/auction.service.ts:582-632 | Settlement happens only from ACTIVE at or after the current end, sells exactly when there is a bid and the last one reaches the reserve, names the leader the arena showed, and nothing later changes the row or settles again |
| AuctionTheorems.SettlesExactlyWhen | apps/api/src/auction/auction.service.ts:582-623 | Settling goes through exactly when the auction is ACTIVE and its current end has come |
| AuctionTheorems.SoldExactlyWhen | apps/api/src/auction/utils/calculate-reserve-met.util.ts:13-20 | Every auction that ended was SOLD exactly when it had a bid and the last one reached the reserve, and that comparison is what the public is shown |
| AuctionAnswers.SettledExactlyWhen | apps/api/src/auction/auction.service.ts:599-645 | Every column and the event that settlement writes |
| AuctionTheorems.PublishesExactlyWhen | apps/api/src/auction/auction.service.ts:283-347 | For every reachable auction: a publish goes through exactly for the seller of a draft that passes the gate now, and opens at once exactly if its start has come |
| AuctionAnswers.DraftedExactlyWhen | apps/api/src/auction/auction.service.ts:70-103 | A draft is made exactly in an open category; every column, picture and event it starts with |
| AuctionAnswers.EachCodeMeans | apps/api/src/auction/utils/validate-draft-for-publish.util.ts:63-189 | Each issue code exactly when its rule fails, over the auction's own columns |
| AuctionAnswers.PublishedExactlyWhen | apps/api/src/auction/auction.service.ts:283-347 | Every column and event a publish writes, and each refusal exactly when |
| AuctionAnswers.EditedExactlyWhen | apps/api/src/auction/auction.service.ts:700-781 | Who may edit what and when; column by column, an edit changes what it names and nothing else |
| AuctionAnswers.EditOfPublicExactlyWhen | apps/api/src/auction/auction.service.ts:754-771 | A public auction is edited exactly to what its own gate would pass |
| AuctionAnswers.CancelledExactlyWhen | apps/api/src/auction/utils/assert-seller-can-change.util.ts:16-43 | A seller cancels exactly their own draft or waiting auction |
| AuctionAnswers.AdminCancelsExactlyWhen | apps/api/src/admin/auctions.service.ts:115-159 | An admin cancels exactly what has neither ended nor been cancelled |
| AuctionTheorems.OwnCancellationTells | apps/api/src/auction/auction.service.ts:857-870 | One AUCTION_CANCELLED for everybody who watched, none for the seller, and nobody else can cancel it as theirs |
| AuctionAnswers.StartedExactlyWhen | apps/api/src/auction/auction-lifecycle.service.ts:99-123 | The timer's write starts exactly what waits and whose start has come |
| AuctionAnswers.PictureAddedExactlyWhen | apps/api/src/auction/auction.service.ts:948-990 | A picture goes onto a draft of fewer than eight, after all others, and leads exactly if it is the first |
| AuctionAnswers.PictureRemovedExactlyWhen | apps/api/src/auction/auction.service.ts:1018-1050 | A picture leaves exactly if it is there, the others keep their places, and the first leads if the lead left |
| AuctionAnswers.WatchedExactlyWhen | apps/api/src/watchlist/watchlist.service.ts:47-61 | Exactly what is public can be watched; watching twice is once; whoever stops is gone and nobody else |
| AuctionTheorems.SoldPriceIsFair | apps/api/src/auction/auction.service.ts:582-632 | A winner and a price exist exactly when SOLD; the winner is not the seller; the price is at least the starting price and the reserve |
| AuctionTheorems.WinnerIsLastBidder | apps/api/src/auction/auction.service.ts:599-632 | The winner placed the last bid and pays its amount |
| AuctionTheorems.TerminalIsFinal | apps/api/src/auction/auction.service.ts:810-870 | SOLD, UNSOLD and CANCELLED are never left and their row, bids and notices never change |
| AuctionTheorems.SplitSettlementAgrees | apps/api/src/auction/auction.service.ts:599-623 | Reading the top bid early and writing later agrees with one step exactly when no bid came between |
| AuctionTheorems.SplitSettlementLosesABid | apps/api/src/auction/auction.service.ts:620-623 | The lost bid, on a concrete lot |
| AuctionTheorems.OpenLotIsReachable | apps/api/src/auction/auction.service.ts:283-347 | That lot is in a database the services produce |
| AuctionTheorems.PublicPassedTheGate | apps/api/src/auction/utils/validate-draft-for-publish.util.ts:63-189 | Every auction that is neither a draft nor cancelled, or that anybody bid on, meets every publish rule that depends on neither clock nor category, and has a primary image |
| AuctionRules.PublishableMeans | apps/api/src/auction/utils/validate-draft-for-publish.util.ts:63-189 | No issue exactly when every rule holds at that instant |
| AuctionTheorems.LogTellsTheStory | apps/api/src/auction/auction-lifecycle.service.ts:99-123 | Folding the event log gives the phase, the number of bids and the number of extensions |
| AuctionTheorems.DeadlineMovesInSteps | apps/api/src/bid/bid.service.ts:226-326 | currentEndAt is originalEndAt plus two minutes per extension, at most five; extension rows are numbered and chained; each later extending bid is placed no earlier than the end the one before replaced; every bid is placed before originalEndAt plus ten minutes |
| AuctionTheorems.SettlementTellsEverybodyOnce | apps/api/src/auction/auction.service.ts:647-673 | One AUCTION_WON for the winner, one AUCTION_ENDED for the seller, every other bidder and every watcher, nothing for anybody else |
| AuctionTheorems.AdminCancellationTells | apps/api/src/admin/auctions.service.ts:115-202 | One AUCTION_CANCELLED for the seller and everybody with a stake, none for the admin |
| AuctionTheorems.OutbidRowsAreDisplacements | apps/api/src/bid/bid.service.ts:365-370 | The OUTBID rows are the adjacent bids by different people, each to the person displaced |
| AuctionRules.AudienceMembers | apps/api/src/auction/utils/find-auction-audience.util.ts:16-50 | Bidders and watchers, less the excluded, each once |
| AuctionInvariant.WithoutImageKeepsGallery | apps/api/src/auction/auction.service.ts:1018-1069 | Removing an image keeps positions ascending and one primary image |
| AuctionInvariant.OpKeeps | apps/api/src/auction/auction.service.ts:283-870 | Every seller, admin and clock transaction keeps the ledger, deadline, log, outcome, gate, gallery and notices |
| AuctionInvariant.BidKeeps | apps/api/src/bid/bid.service.ts:234-370 | A committed bid keeps them too |
| AuctionDatabase.ValidateDraftForPublish | apps/api/src/auction/utils/validate-draft-for-publish.util.ts:63-189 | The loop collects exactly the rules that fail, in order |
| AuctionDatabase.FindAuctionAudience | apps/api/src/auction/utils/find-auction-audience.util.ts:16-50 | The two loops build the audience |
| AuctionDatabase.Database.CreateDraft | apps/api/src/auction/auction.service.ts:70-103 | The new state is the draft step's |
| AuctionDatabase.Database.PublishDraft | apps/api/src/auction/auction.service.ts:283-347 | The new state is the publish step's, and it succeeds exactly when that step does |
| AuctionDatabase.Database.UpdateOwnAuction | apps/api/src/auction/auction.service.ts:700-781 | A failed edit of a scheduled auction is rolled back in full |
| AuctionDatabase.Database.CancelOwnAuction | apps/api/src/auction/auction.service.ts:810-870 | The new state is the cancel step's |
| AuctionDatabase.Database.CancelByAdmin | apps/api/src/admin/auctions.service.ts:115-202 | The new state is the admin's cancel step |
| AuctionDatabase.Database.AddDraftImage | apps/api/src/auction/auction.service.ts:916-1006 | The new state is the add-image step's |
| AuctionDatabase.Database.RemoveDraftImage | apps/api/src/auction/auction.service.ts:1018-1069 | The new state is the remove-image step's |
| AuctionDatabase.Database.SettleInTransaction | apps/api/src/auction/auction.service.ts:582-687 | The new state is the settle step's; it settles exactly when the auction is running and over, SOLD exactly if the last bid reaches the reserve |
| AuctionDatabase.Database.CommitBid | apps/api/src/bid/bid.service.ts:234-391 | Row by row, the transaction does what the commit phase says, or is rolled back |
| AuctionDatabase.Database.PlaceBid | apps/api/src/bid/bid.service.ts:49-101 | With nobody else writing: each answer exactly when, replays included; a fresh bid is recorded exactly when it is judged good, as the next row of its auction; it is never told that somebody bid first |
| AuctionLifecycle.InOrderIsSorted | apps/api/src/auction/auction-lifecycle.service.ts:154-175 | The batch query is sorted by deadline |
| AuctionLifecycle.FirstOnesGo | apps/api/src/auction/auction-lifecycle.service.ts:154-175 | Of those overdue first, a batch takes as many as it can hold |
| AuctionLifecycle.StartsEach | apps/api/src/auction/auction-lifecycle.service.ts:99-123 | Starting a list of due auctions starts each of them, on its own terms and to its own deadline, and changes no other |
| AuctionLifecycle.PassClears | apps/api/src/auction/auction-lifecycle.service.ts:48-71 | From any database the services produce, and however much fell due since an instant: a pass starts fifty of those due by it, or all; settles at most fifty of those ended by it, started or not; and settles fifty of them, or all, if at most fifty were waiting to start |
| AuctionLifecycle.BacklogClears | apps/api/src/auction/auction-lifecycle.service.ts:79-175 | With nobody else writing, of m auctions due to start and n ended by an instant, k passes leave exactly m - 50k waiting and between n - 50k and n - 50(k - w) open, w being the full batches that start before the last of the m; none is open after w + n / 50 passes, rounded up; exact when at most fifty wait |
| AuctionLifecycle.BacklogIsGone | apps/api/src/auction/auction-lifecycle.service.ts:79-175 | After enough passes no auction waits whose start had come by the instant, and none is open whose end had |
| AuctionLifecycle.QuietPassClears | apps/api/src/auction/auction-lifecycle.service.ts:48-71 | Where no auction that waits to start has ended by the instant, a pass settles fifty of the overdue, or all |
| AuctionLifecycle.QuietBacklogClears | apps/api/src/auction/auction-lifecycle.service.ts:154-175 | Where no auction that waits to start has ended by the instant, k passes settle exactly 50k of the overdue, or all |
| AuctionLifecycle.LifecycleTimer.StartDueAuctions | apps/api/src/auction/auction-lifecycle.service.ts:79-147 | The loop starts exactly the batch and returns its size |
| AuctionLifecycle.LifecycleTimer.SettleDueAuctions | apps/api/src/auction/auction-lifecycle.service.ts:154-175 | The loop settles exactly the batch and returns its size |
| AuctionLifecycle.LifecycleTimer.ReconcileLifecycle | apps/api/src/auction/auction-lifecycle.service.ts:48-71 | One pass, and none while another is under way |
| LineTotal.LineAddsUp | apps/api/src/cart/utils/calculate-line-total.util.ts:21-54 | The discount applies exactly from the threshold on; discount plus subtotal is the gross, the subtotal is unit price times quantity, and the unit price is the exact discounted price to the nearest satang, half up |
| LineTotal.RoundsToNearest | apps/api/src/cart/utils/calculate-line-total.util.ts:21-54 | The rounded quotient is within half a unit of the exact one, ties away from zero |
| LineTotal.TotalIsPriced | apps/api/src/cart/utils/calculate-line-total.util.ts:27-50 | For any price and rule: the full price below the threshold, the discounted price to the nearest satang from it on |
| LineTotal.PriceIsMonotone | apps/api/src/cart/utils/calculate-line-total.util.ts:21-54 | A dearer unit never makes a cheaper line |
| LineTotal.DiscountIsMonotone | apps/api/src/cart/utils/calculate-line-total.util.ts:21-54 | A bigger discount never makes a dearer line |
| ShopRules.NoIssuesMeansBuyable | apps/api/src/order/utils/checkout-issue.util.ts:52-98 | No issue exactly when every line is on sale, somebody else's and in stock |
| ShopRules.GroupingPartitions | apps/api/src/order/checkout.service.ts:594-604 | One group per seller, holding that seller's lines in order, and no line left out |
| ShopRules.GroupingKeepsSums | apps/api/src/order/checkout.service.ts:594-604 | Any measure of the lines adds up to the same over the groups |
| ShopRules.ItemsCarryTheLines | apps/api/src/order/checkout.service.ts:235-265 | The items of an order have the units and the value of its lines |
| ShopRules.ReferencedMeansUnits | apps/api/src/product/product.service.ts:317-339 | The count `remove` takes is zero exactly when no unit is in a live order |
| ShopReachable.ReachableBooks | apps/api/src/order/checkout.service.ts:87-318 | Over every interleaving of checkouts, sellers, admins, parcels and settlements, listing edits in halves included: stock is never negative, and orders, lots, payments, sessions, offers and discount rules stay as they should |
| ShopTheorems.StockIsConserved | apps/api/src/order/checkout.service.ts:611-660 | In every run, with listing edits in one step or in halves, stock plus units in orders not cancelled is what the seller declared, and stock is never negative |
| ShopAnswers.CreatedExactlyWhen | apps/api/src/product/product.service.ts:38-66 | A listing is created exactly with a whole discount rule or none; every column it starts with |
| ShopAnswers.UpdatedExactlyWhen | apps/api/src/product/product.service.ts:210-263 | An update goes through exactly on the seller's own open listing if the rule stays whole; column by column, it changes what it names |
| ShopAnswers.PausedExactlyWhen | apps/api/src/product/product.service.ts:270-315 | A pause, resume or restock goes through exactly on the seller's own open listing; what each leaves |
| ShopAnswers.RemovedExactlyWhen | apps/api/src/product/product.service.ts:317-339 | A removal goes through exactly on the seller's own listing that is not suspended, and hides it only if a paid order has it |
| ShopAnswers.ModeratedExactlyWhen | apps/api/src/admin/products.service.ts:93-166 | An admin suspends exactly what is neither suspended nor removed, and lifts exactly a suspension |
| ShopAnswers.IssueIs | apps/api/src/order/utils/checkout-issue.util.ts:52-98 | The first reason a line cannot be bought, each exactly when |
| ShopAnswers.IssuesAreThose | apps/api/src/order/utils/checkout-issue.util.ts:52-98 | The list holds the reason of every line that has one, and nothing else |
| ShopAnswers.LotIsPricedExactlyWhen | apps/api/src/order/checkout.service.ts:413-470 | A lot can be paid for exactly by its winner while no order item points at it: one unit at its sold price |
| ShopAnswers.OfferIsSpentExactlyWhen | apps/api/src/ai-tools/negotiator-facade.service.ts:231-246 | A token is spent exactly on an accepted, unexpired offer |
| ShopAnswers.OfferIsPricedExactlyWhen | apps/api/src/order/checkout.service.ts:483-576 | A redeemed offer is priced exactly for its buyer, on a listing on sale with enough left, at the agreed price |
| ShopAnswers.ChargedExactlyWhen | apps/api/src/payment/payment.service.ts:18-37 | The charge is declined exactly at 666.00, and one payment row of the total is written either way |
| ShopInvariant.AtOnceIsTheStep | apps/api/src/product/product.service.ts:210-339 | An edit in one step is the write it is judged to be, on the row it read |
| ShopReachable.HalvesTogetherAreTheStep | apps/api/src/product/product.service.ts:210-339 | Judged, counted and written with nothing between, an edit is its one step |
| ListingRaces.LeftRightExactlyWhen | apps/api/src/product/product.service.ts:210-339 | For each edit, sellers' and admins': written onto any later row, it leaves the row consistent and no pause, suspension or removal undone by an edit not meant to, exactly when that row fits what was read and counted |
| ListingRaces.LateEditIsSafeExactlyWhen | apps/api/src/product/product.service.ts:631-643 | The same of any edit under way in any state with the shelf in order |
| ListingRaces.SplitEditsAreSafeExactlyWhen | apps/api/src/product/product.service.ts:210-339 | Over every run, with edits in halves and a removal's count a read of its own: all edits leave their rows right exactly when each still fitted when written; then the shelf is in order |
| ListingRaces.FittingStepKeeps | apps/api/src/admin/products.service.ts:93-166 | Any step, if a write in it fits, keeps the shelf, and changes a deliberate status only by an edit of that listing meant to |
| ListingRaces.ActiveMeansInStock | apps/api/src/product/product.service.ts:631-643 | In every state reached with edits that fit: on the shelf, ACTIVE exactly when there is stock; a REMOVED listing is in no live order; a discount rule is whole or absent |
| ListingRaces.RemovedIsFinal | apps/api/src/product/product.service.ts:317-339 | Over every run in which edits fit, REMOVED stays, though removing again is not refused |
| ListingRaces.OnlyAnAdminLiftsASuspension | apps/api/src/admin/products.service.ts:93-166 | Over every run in which edits fit, SUSPENDED stays until an admin begins to lift it |
| ListingRaces.APauseStays | apps/api/src/product/product.service.ts:270-297 | Over every run in which edits fit, INACTIVE stays until its seller begins to resume or remove it or an admin to suspend it |
| ListingRaces.LateEditUndoesATakedown | apps/api/src/product/product.service.ts:631-643 | One edit that names neither stock nor status lifts a suspension, resumes a pause, restores a removal and sells from an empty shelf, after one action in between |
| ShopTheorems.OrderFollowsParcel | apps/api/src/shipment/shipment.service.ts:66-194 | An order is CANCELLED exactly when its parcel is, and a parcel's log is one of five, written out, each for its status |
| ShopTheorems.SentOrdersStayPaid | apps/api/src/shipment/constants/shipment-transition.constant.ts:7-24 | Over every run, an order whose parcel was ever SHIPPED is PAID at every later point |
| ShopAnswers.ParcelMovesExactlyWhen | apps/api/src/shipment/shipment.service.ts:66-121 | A parcel moves exactly for its seller, from where the request saw it, by one of four moves; every column it leaves |
| ShopTheorems.ReceiptsAreFinal | apps/api/src/order/checkout.service.ts:228-318 | What an order says was bought, by whom and for how much never changes; a cancelled order never changes at all; payments are only added |
| ShopTheorems.ParcelUpdateRestocks | apps/api/src/shipment/shipment.service.ts:153-194 | An update gives each listing the order's units exactly when it cancels the order |
| ShopTheorems.CancellingRestocksOnce | apps/api/src/shipment/shipment.service.ts:66-194 | After any later run the same update restocks nothing again |
| ShopTheorems.LotIsPaidAtMostOnce | apps/api/src/order/checkout.service.ts:413-470 | A lot is in at most one order item over all orders, bought by its winner from its seller at its sold price |
| ShopTheorems.OnePaymentPerSession | apps/api/src/order/checkout.service.ts:108-151 | A session that asked the provider has one payment row, for the sum of its lines; one that did not has none |
| ShopTheorems.ChargedIsOrdered | apps/api/src/order/checkout.service.ts:196-318 | A session has all its orders, for a succeeded payment whose amount is the sum of subtotals and of unit prices times quantities, or none |
| ShopTheorems.OrderIsItsLines | apps/api/src/order/checkout.service.ts:235-265 | Every order is its session's buyer's and payment's, and its items are its seller's lines, column by column |
| ShopTheorems.OneOrderPerSeller | apps/api/src/order/checkout.service.ts:228-265 | Two orders of one session are for different sellers |
| ShopTheorems.OfferIsRedeemedOnce | apps/api/src/ai-tools/negotiator-facade.service.ts:219-249 | At most one session redeems an offer, and no later request can |
| ShopTheorems.OfferBuysAtMostOnce | apps/api/src/order/checkout.service.ts:483-576 | At most one order comes of an offer: its buyer's, its listing, its quantity, its price |
| ShopTheorems.PayableMeansRedeemable | apps/api/src/ai-tools/negotiator-facade.service.ts:161-217 | What is listed as payable is exactly this buyer's offers that can be redeemed at that instant, on listings on sale; what was redeemed is never listed again |
| ShopCommit.CommitMovesUnits | apps/api/src/order/checkout.service.ts:611-660 | Writing orders takes from the shelf what it adds to the orders, keeps a shelf in order, and changes no deliberate status |
| ShopCommit.LotsStayOnce | apps/api/src/order/checkout.service.ts:196-226 | The unique index keeps a lot in one item |
| CheckoutOutcome.DecrementSucceedsExactly | apps/api/src/order/checkout.service.ts:611-660 | The guarded decrements all match exactly when every listing is on sale with enough for all its lines together |
| CheckoutOutcome.OrdersAreWrittenExactlyWhen | apps/api/src/order/checkout.service.ts:196-318 | After a charge the orders are written exactly when the lot is in no order and there is enough of every listing; otherwise nothing is written and the charge stands |
| CheckoutOutcome.CartIsPricedExactlyWhen | apps/api/src/order/checkout.service.ts:324-398 | A cart is priced exactly when it is not empty, every line picked is there and the buyer's own, and every line can be bought; each priced line is its row's, at its listing's own price and rule |
| CheckoutOutcome.OnlyOrderedLinesAreCleared | apps/api/src/order/checkout.service.ts:300-308 | Ordering clears the lines it ordered and leaves every other cart line as it was |
| CheckoutOutcome.BothAreOrderedExactlyWhen | apps/api/src/order/checkout.service.ts:228-318 | Of two charged sessions that hold one cart line, both are ordered exactly when there is enough of every listing for the lines of both |
| CheckoutOutcome.OneCartIsOrderedTwice | apps/api/src/order/checkout.service.ts:304-308 | Two tabs paying for one cart line both get an order, in a reachable state |
| CheckoutOutcome.BothChargedIsReachable | apps/api/src/order/checkout.service.ts:108-151 | The state before it is reached by pricing twice and charging twice |
| ShopDatabase.CollectCheckoutIssues | apps/api/src/order/utils/checkout-issue.util.ts:52-98 | The loop collects every issue; none exactly when every line can be bought |
| ShopDatabase.GroupLinesBySeller | apps/api/src/order/checkout.service.ts:594-604 | The loop builds the partition |
| ShopDatabase.PriceLines | apps/api/src/order/checkout.service.ts:381-397 | The loop prices every line at its listing's price and rule as they are |
| ShopDatabase.CountLiveLines | apps/api/src/product/product.service.ts:322-326 | Positive exactly when a live order has a line for the listing |
| ShopDatabase.GrandTotal | apps/api/src/order/checkout.service.ts:108-111 | The total is the sum of the subtotals, by line and by seller |
| ShopDatabase.Database.Create | apps/api/src/product/product.service.ts:38-66 | The new state is the create step's; half a discount rule is refused |
| ShopDatabase.Database.Update | apps/api/src/product/product.service.ts:210-263 | The new state is the update step's; a refusal changes nothing |
| ShopDatabase.Database.UpdateStatus | apps/api/src/product/product.service.ts:270-297 | The new state is the pause or resume step's |
| ShopDatabase.Database.UpdateStock | apps/api/src/product/product.service.ts:299-315 | The new state is the restock step's |
| ShopDatabase.Database.Remove | apps/api/src/product/product.service.ts:317-339 | REMOVED exactly when no unit of it is in a live order |
| ShopDatabase.Database.CountReferences | apps/api/src/product/product.service.ts:317-339 | Positive exactly when a live order has units of the listing |
| ShopDatabase.Database.Deactivate | apps/api/src/admin/products.service.ts:93-117 | The new state is the suspension step's |
| ShopDatabase.Database.Reactivate | apps/api/src/admin/products.service.ts:119-148 | Succeeds exactly on a suspended listing |
| ShopDatabase.Database.PriceCart | apps/api/src/order/checkout.service.ts:324-398 | The lines it prices, or the refusal, are the pricing step's; each line at its listing's own price and rule |
| ShopDatabase.Database.PriceAuction | apps/api/src/order/checkout.service.ts:413-470 | The one line, or the refusal, is the pricing step's |
| ShopDatabase.Database.IsPaid | apps/api/src/order/checkout.service.ts:447-459 | Yes exactly when some order item points at the lot |
| ShopDatabase.Database.ConsumeAcceptToken | apps/api/src/ai-tools/negotiator-facade.service.ts:219-249 | Spends the offer exactly when it was unspent and unexpired, and cannot spend it again |
| ShopDatabase.Database.PriceOffer | apps/api/src/order/checkout.service.ts:483-576 | The one line, or the refusal, is the pricing step's |
| ShopDatabase.Database.Charge | apps/api/src/payment/payment.service.ts:18-37 | One payment row whatever the answer; declined exactly at 666.00 |
| ShopDatabase.Database.InsertAll | apps/api/src/order/checkout.service.ts:228-265 | Succeeds exactly when no unique index refuses |
| ShopDatabase.Database.DecrementStock | apps/api/src/order/checkout.service.ts:611-660 | Succeeds exactly when every conditional update matches, and then marks what sold out |
| ShopDatabase.Database.RunOrderTransaction | apps/api/src/order/checkout.service.ts:196-318 | All the orders, stock and cart lines, or the tables exactly as they were |
| ShopDatabase.Database.UpdateShipment | apps/api/src/shipment/shipment.service.ts:66-146 | The new state is the parcel step's; it succeeds exactly for the seller, from the status the request read, by one of the four moves |
| ShopDatabase.Database.CancelOrder | apps/api/src/shipment/shipment.service.ts:153-194 | The order is cancelled, its units are back, and only what was sold out reopens |
| Market.PaidLotWasWon | apps/api/src/order/checkout.service.ts:413-470 | Over both sides together: a lot in an order was sold, is in that item only, was bought by whoever placed its last and leading bid, at that amount, from its seller, who is somebody else, for at least the reserve |
| Market.ShopSeesWhatSold | apps/api/src/order/checkout.service.ts:413-455 | In every run the lots checkout can read are exactly the SOLD ones, each to its last bidder at that bid |
| Market.WonLotCanBePaid | apps/api/src/order/checkout.service.ts:413-470 | Until an order has it, a SOLD lot can be paid for by its last bidder at that bid, and by nobody else |
| Market.SoldLotsOnlyGrow | apps/api/src/auction/auction.service.ts:582-632 | No auction step changes or withdraws a lot that sold |
| Negotiator.VerdictIsSafe | apps/api/src/ai-tools/negotiator.service.ts:44-71 | Rejected exactly below the floor or above the stock; accepted exactly otherwise at the asking price or the standing counter; a counter is above the offer, at most the asking price, and halves the gap rounding down |
| Bargain.PaidOfferWasAgreed | apps/api/src/ai-tools/negotiator-facade.service.ts:47-138 | Over haggling and shop together: an order paid through an offer is that offer's only one, its buyer's, for what was asked; and its price is at or above the floor that stood, on a listing on sale by somebody else, where the run read it |
| Bargain.AskedExactlyWhen | apps/api/src/ai-tools/negotiator-facade.service.ts:53-90 | A request reads the listing as it stands, column by column, and that buyer's offers on it so far |
| Bargain.AnswersAreRecorded | apps/api/src/ai-tools/negotiator-facade.service.ts:101-122 | In every run an answer that is no refusal is on record at once with its terms; a refusal leaves nothing |
| Negotiator.GapHalves | apps/api/src/ai-tools/negotiator.service.ts:44-71 | For any offer at or above the floor and in stock, after k counters offered back the gap is the first gap divided by 2 to the k |
| Negotiator.CountersReachTheAskingPrice | apps/api/src/ai-tools/negotiator.service.ts:31-71 | For any offer at or above the floor and in stock, the counters reach the asking price, and are accepted, exactly once 2 to the k exceeds the gap |
| Negotiator.OffersAreAnsweredExactlyWhen | apps/api/src/ai-tools/negotiator-facade.service.ts:47-138 | Each refusal exactly when: a cooldown of five minutes after the newest of 24 hours, a cap of three in 24 hours, both lifted exactly by meeting the counter on the table; any other offer is judged and its row written, column by column |
| Negotiator.WindowHoldsAtLeast | apps/api/src/ai-tools/negotiator-facade.service.ts:262-272 | The window holds n offers or more exactly when the n-th newest is less than 24 hours old |
| Negotiator.OutstandingIs | apps/api/src/ai-tools/negotiator-facade.service.ts:299-310 | An offer meets a counter exactly when it reaches the newest one of the last 24 hours |
| Negotiator.LimiterHolds | apps/api/src/ai-tools/negotiator-facade.service.ts:262-310 | In any serial run every 24 hours hold at most three offers that met no counter, each five minutes or more after the offer before |
| Negotiator.LateWriteIsSpacedExactlyWhen | apps/api/src/ai-tools/negotiator-facade.service.ts:75-111 | An offer judged on what it read keeps the spacing exactly when it met a counter or the newest offer it did not see is five minutes old |
| Negotiator.LateWriteIsCappedExactlyWhen | apps/api/src/ai-tools/negotiator-facade.service.ts:75-111 | One more offer keeps the cap exactly when it met a counter or the 24 hours that end with it hold fewer than three that met none |
| Negotiator.LimitHoldsExactlyWhenEachHadRoom | apps/api/src/ai-tools/negotiator-facade.service.ts:75-111 | Over every interleaving of reads and writes the limit holds on record exactly when each offer met a counter or had room as it was written |
| Negotiator.SideBySideBeatsTheCooldown | apps/api/src/ai-tools/negotiator-facade.service.ts:274-283 | Two requests that read before either wrote are written a second apart |
| Negotiator.SideBySideBeatsTheCap | apps/api/src/ai-tools/negotiator-facade.service.ts:285-289 | Four requests that read before any wrote, written any little while apart, put four offers in one 24 hours; five minutes apart they keep even the cooldown |
| Negotiator.CounterIsHonoured | apps/api/src/ai-tools/negotiator-facade.service.ts:75-111 | A counter offered back within the window on an unchanged listing is accepted, whatever was refused in between |
| Negotiator.StandingCounter | apps/api/src/ai-tools/negotiator-facade.service.ts:299-310 | The newest counter in the window stands |
| NegotiatorFacade.Service.Negotiate | apps/api/src/ai-tools/negotiator-facade.service.ts:47-138 | The row written, or the refusal, each exactly when, and the limit still holds after it |
| Presence.KeysDiffer | apps/api/src/realtime/presence-registry.ts:84-95 | A key stands for one auction and one person |
| Presence.RegisterAgreesExactly | apps/api/src/realtime/presence-registry.ts:36-44 | Registering keeps the two maps in agreement exactly when the socket does not hold the auction as somebody else |
| Presence.UnregisterKeeps | apps/api/src/realtime/presence-registry.ts:52-62 | The count falls by one with the sockets, everything else stays, and the answer is yes exactly when the count was one |
| Presence.ReleaseReturnsTheGone | apps/api/src/realtime/presence-registry.ts:69-82 | The socket goes, every other socket stays, and what is returned is, once each, who had no other socket there |
| Presence.CountsAreOffByDisplacement | apps/api/src/realtime/presence-registry.ts:36-95 | In every run a count is the number of sockets plus the times that person was displaced; there are no zero entries and no empty sockets |
| Presence.AgreesExactlyWithoutSwaps | apps/api/src/realtime/presence-registry.ts:36-95 | The maps agree after a run exactly when no socket changed identity within an auction during it |
| Presence.RejoiningAsAnotherDrifts | apps/api/src/realtime/presence-registry.ts:36-44 | Two registrations of one socket as two people leave the first counted with no socket |
| PresenceRegistry.Spread | apps/api/src/realtime/presence-registry.ts:75-79 | The copy lists every auction of the socket once |
| PresenceRegistry.PresenceRegistry.Register | apps/api/src/realtime/presence-registry.ts:36-44 | The new maps are the register step's |
| PresenceRegistry.PresenceRegistry.Unregister | apps/api/src/realtime/presence-registry.ts:52-62 | The new maps and the answer are the unregister step's; with the maps in agreement the answer is yes exactly when nobody is left |
| PresenceRegistry.PresenceRegistry.ReleaseSocket | apps/api/src/realtime/presence-registry.ts:69-82 | The loop lets go of exactly that socket and returns exactly those now gone |
| Presence.BumpCounts | apps/api/src/realtime/presence-registry.ts:84-95 | That pair's count, and no other, moves by the change; no zero entry is left; the answer is the new count |

## Left out

- Database isolation: every transaction is one step; a bid, a checkout, an offer and a listing edit are split where the code splits them. A removal is split in three, for its count of orders is a read of its own. An edit may also come in one step.
- Conflict answers of the auction transactions (publish, edit, cancel, settle, start) that report a row changed under them: with each transaction one step, those branches are never reached.
- `deletedAt`: nothing in the repository writes it, so the filter on it is always met.
- Decimal precision: amounts are exact; the 20 significant digits of the decimal library and binary floating point in the negotiator are not modelled.
- Order of `distinct` queries: the audience lists bidders in bid order and watchers in the order they began to watch.
- Message texts, audit rows, cancellation reasons, order addresses, tracking numbers, order and shipment notifications, chat auto-replies: written beside the state, read by none of it.
- Broadcasts and gateways: the stale end time an `auction:started` message can carry is not part of this model.
- Tokens: an accept token is the offer it names; its signature and its own expiry are not modelled, the offer row's expiry is.
- Categories: they are opened and closed but not deleted, and a listing's category and images are not kept; the create and update steps do not check them.
- Cart rules: a line enters or leaves a cart in any quantity of one or more, for any listing; the checks made when adding to a cart are not modelled, nor is the unique index that gives one line per listing.
- A listing's floor warnings, titles and descriptions: returned or stored, never decided on.
- Market.PaidLotWasWon: an auction is marked as paid only through its order item, as in the source; refunds and re-sales do not exist there either.
- Negotiator.LimiterHolds: windows are half-open, 24 hours up to and including their end, because the query asks for offers strictly newer than 24 hours.
- Presence.AgreesExactlyWithoutSwaps: ids are non-empty and hold no colon, as the repository's UUIDs are.
- Listing, paging and search queries, DTO validation, name masking, slugs, support chat, watchlist screens, authentication, password reset, trusted devices and all of the web front end: thin, foreign or single-branch.
