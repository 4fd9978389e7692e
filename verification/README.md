# Verified model of the MadinatyAI core services

Dafny model and proofs for the stateful heart of MadinatyAI-CoreMesh:

- **Souk ElKanto negotiation** coupled to the **token ledger**: listings, offers with counter-offers, accept and delete
  cascades, two-party handover, cancellation and disputes (`Souk*.dfy`, `Token*.dfy`).
- **Madinaty Life** location hierarchy: moves, cascading deletes, breadcrumbs and the nested tree, cycles included (`Life*.dfy`, `Paths.dfy`).
- **One-time passwords**: per-phone throttle, guessing bounds and the meaning of the answers (`Otp*.dfy`).
- **Rate limiter**, its guard and whose requests it counts together (`RateLimit*.dfy`, `Letters.dfy`).
- **Log scrubbing** of cyclic object graphs (`Scrub*.dfy`).
- **Express** delivery assignment (`Express*.dfy`).
- **Trust score** and the report pipeline that stores it (`Trust*.dfy`).

`dafny verify dfyconfig.toml` checks the whole project.

## How the model is built

Each component has a `…Model` module: rows as datatypes, every service call as a function from the stored rows to either
a refusal or the new rows, and `Run`, the rows after any sequence of calls from the empty store. The `…Service` modules
hold the classes, whose fields are the tables; their methods update the fields step by step and are proved equal to
those functions. The `…Guarantees`, `…Bounds` and other modules prove the properties, over every run, in terms of the calls, the
requests and the columns of the rows.

Conventions: an id is an opaque number; a generated id is an argument of the call that creates a row, and reusing one is
refused as the unique key of the table would; a call is atomic and reads the clock once; foreign keys hold; the profile,
trust, photo and kitchen lookups are arguments that say what was found. Reads and writes of the database are map and
sequence operations.

The joint invariant of the negotiation is `SoukInvariant.Inv`. Everything stated about reachable states of the
marketplace rests on `SoukPreservation.ReachableInv`.

## Where the code says something else than its comments

- "Release token hold" credits zero tokens, on completion and on cancellation: `SoukCharges.ReleaseRefundsNothing`.
- A hold debits the configured price of `SOUK_OFFER_HOLD`, not the announced `tokenHoldAmount`: `SoukCharges.HoldBooks`; the two
  coincide exactly when holds are priced at the announced amount (`HoldAsAnnouncedIff`).
- A removed listing can come back as ACTIVE or SOLD (`SoukRemoval.RemovedComesBack`); it is removed for good exactly when
  no deal on it awaits its handover (`RemovedForGoodIff`).
- The buyer-side calls are meant for counters made by the seller, but nothing records who made a counter. The rows show
  that it was the seller's exactly when it has one ancestor (`SoukCounters.AuthorKnownIff`). Either side can accept or
  decline a pending counter of its own (`EitherSideAccepts`, with a run for each side), and the seller can counter its own
  again; the buyer never can (`CounterAgainIff`, `BuyerNeverCountersOwn`).
- "Closes the deal at the seller's counter amount" does not hold even then: `updateOffer` is meant for the buyer's own
  offers but also rewrites the seller's counters (`SoukPrices.ClosedBelowCounter`). The amount is the seller's exactly when
  the buyer named no other one last (`SellersPriceIff`), and the rows never tell whether that is so (`PriceNeverTold`).
- `getOfferChain` promises the full chain; from any member but the root it returns the root alone. Sharing no visited set
  between the two walks repairs it: `SoukServices.SoukService.GetOfferChain`, `GetOfferChainRepaired`.
- The dispute guard is meant to allow one open dispute per offer; the unique key on the offer id allows one ever:
  `SoukDisputes.DisputeAdmission`.
- "Sliding window counter" is a fixed window: it admits up to `2 * maxRequests - 3` requests in one window length of two
  milliseconds or more. `RateLimitBounds.AnyWindowBound` gives the bound for every tier, `BoundAttained` a run that
  reaches it, `DefaultMinute` the numbers for the defaults.
- The remaining count the limiter announces is one more than it will still admit: `RateLimitBounds.RemainderMeans`.
- A new one-time code is meant to supersede the earlier ones; in the very millisecond in which an earlier code runs out,
  superseding spares it and verifying still accepts it once the new one is used (`OtpAnswers.OldCodeAtItsLastMoment`).
  Later than that, exactly the last code lets the user in (`LetInIff`), and this is the only other way (`OtherWayIn`).
- "Prevent circular reference" only excludes a location that is its own parent: `LifeModel.GuardTooWeak`; the hierarchy
  stays a forest exactly as long as no move enters the moved subtree (`ForestThroughoutIff`).
- "Fetches the entire subtree hierarchy": the full tree leaves cycles out without a sign, and the recursion does
  not end when asked for a location on a cycle: `LifeCycles.ListedExactly`, `TraversalEndsIff`.
- The guards of an accept call run outside its transaction; `SoukInterleaving` shows the race and when a late commit is
  safe. Re-reading the listing inside the transaction keeps one live deal under every interleaving (`RecheckRepairs`) but
  still accepts withdrawn offers (`WithdrawnAccepted`); re-reading the offer too keeps the whole invariant
  (`FullRecheckRepairs`).

## Model

Theorems first, component by component, then the methods whose refinement takes a loop, a recursion or several tables.

| member | source | states |
|---|---|---|
| `SoukPreservation.ReachableInv` | apps/core-hub/src/modules/soukelkanto/soukelkanto.service.ts:82-1702 | the joint invariant (references, threads, live deals, bidding, one pending bid, handovers, disputes) holds after every sequence of calls from the empty store |
| `SoukPreservation.StepKeeps` | apps/core-hub/src/modules/soukelkanto/soukelkanto.service.ts:82-1702 | every call, carried out or refused, keeps the joint invariant |
| `SoukAdmission.CarriedOutIff` | apps/core-hub/src/modules/soukelkanto/soukelkanto.service.ts:82-1702 | in every reachable state a call is carried out exactly when a table of rights over the stored columns (who, in which status, at which price, within which time, with which tokens) allows it |
| `SoukAdmission.RefusalsTruthful` | apps/core-hub/src/modules/soukelkanto/soukelkanto.service.ts:82-1702 | in every reachable state the error of a refusal reports a fact about the stored columns, and nothing is written |
| `SoukEffects.CarriedOutEffect` | apps/core-hub/src/modules/soukelkanto/soukelkanto.service.ts:280-1492 | in every reachable state a carried-out call on offers writes exactly its columns, of its offer, thread, listing, handover row and the buyer's log, and no others |
| `SoukRecords.ListingAsLastNamed` | apps/core-hub/src/modules/soukelkanto/soukelkanto.service.ts:82-313 | in every run a listing belongs to whoever made it, at the price that seller named last |
| `SoukGuarantees.OneLiveDeal` | apps/core-hub/src/modules/soukelkanto/soukelkanto.service.ts:280-1479 | reachable ACTIVE listings have no live offer, RESERVED ones exactly one awaiting handover, SOLD ones exactly one CONFIRMED, REMOVED ones at most one; PENDING_REVIEW and EXPIRED are never reached |
| `SoukRemoval.RemovedForGoodIff` | apps/core-hub/src/modules/soukelkanto/soukelkanto.service.ts:280-1479 | a REMOVED listing stays REMOVED under every continuation of the run exactly when no offer on it awaits its handover |
| `SoukRemoval.RemovedComesBack` | apps/core-hub/src/modules/soukelkanto/soukelkanto.service.ts:280-313 | wherever the handover stood, a deal survives the removal of its listing: cancelling it makes the listing ACTIVE with no live offer, two confirmations make it SOLD |
| `SoukGuarantees.BiddingCloses` | apps/core-hub/src/modules/soukelkanto/soukelkanto.service.ts:288-861 | no PENDING offer on a listing that is not ACTIVE; on RESERVED or SOLD only the parent of the unique live offer may be COUNTERED, on REMOVED none |
| `SoukGuarantees.OnePendingBid` | apps/core-hub/src/modules/soukelkanto/soukelkanto.service.ts:407-436 | a buyer never has two pending opening bids on one listing |
| `SoukGuarantees.AcceptCascade` | apps/core-hub/src/modules/soukelkanto/soukelkanto.service.ts:500-531 | the winner is ACCEPTED, the other unspared open bids of its listing DECLINED, and every other offer row, the handovers, the disputes and the ledger are as before |
| `SoukGuarantees.DeleteCascade` | apps/core-hub/src/modules/soukelkanto/soukelkanto.service.ts:288-313 | removal expires exactly the open bids of that listing and leaves live deals and other listings alone |
| `SoukGuarantees.ReachableForest` | apps/core-hub/src/modules/soukelkanto/soukelkanto.service.ts:616-660 | parent links form a forest with paths of at most two ancestors; a thread shares listing, buyer and seller, and buyer differs from seller |
| `SoukGuarantees.ReachableChildren` | apps/core-hub/src/modules/soukelkanto/soukelkanto.service.ts:957-1007 | at most one child per offer; COUNTERED offers have one; offers with a child are neither PENDING nor WITHDRAWN; counters carry no hold |
| `SoukGuarantees.OnePendingPerThread` | apps/core-hub/src/modules/soukelkanto/soukelkanto.service.ts:616-660 | two PENDING offers with the same root are the same offer |
| `SoukGuarantees.BoundedDepthIsAncestorCount` | apps/core-hub/src/modules/soukelkanto/soukelkanto.service.ts:1080-1096 | on reachable states the capped walk counts the ancestors exactly, so the guard passes exactly below depth two |
| `SoukGuarantees.CappedWalk` | apps/core-hub/src/modules/soukelkanto/soukelkanto.service.ts:1080-1090 | in any store the capped walk is exact for every path that fits under the cap |
| `SoukGuarantees.BandMeaning` | apps/core-hub/src/modules/soukelkanto/soukelkanto.service.ts:1063-1078 | the rounded band check accepts exactly the positive amounts between half and one and a half times the asking price |
| `SoukCounters.AuthorKnownIff` | apps/core-hub/src/modules/soukelkanto/soukelkanto.service.ts:616-1007 | every run that ends in the same rows had the seller make the counter, exactly when it has one ancestor: with two, the rows do not tell who made it |
| `SoukCounters.AnswerToBidIsSellers` | apps/core-hub/src/modules/soukelkanto/soukelkanto.service.ts:616-1007 | in every run an offer with exactly one ancestor was made by its seller, through a counterOffer call that was carried out |
| `SoukCounters.CounterAgainIff` | apps/core-hub/src/modules/soukelkanto/soukelkanto.service.ts:616-1007 | either party can counter a counter exactly when it is pending, has one ancestor and the amount is in the band |
| `SoukCounters.BuyerNeverCountersOwn` | apps/core-hub/src/modules/soukelkanto/soukelkanto.service.ts:957-1007 | a buyer is refused on a counter it made itself, in every run |
| `SoukCounters.EitherSideAccepts` | apps/core-hub/src/modules/soukelkanto/soukelkanto.service.ts:469-943 | in every reachable state both parties can accept (given a complete profile) and decline a pending counter, its maker included |
| `SoukCounters.SellerAcceptsOwnCounter` | apps/core-hub/src/modules/soukelkanto/soukelkanto.service.ts:469-531 | a run in which the seller accepts the counter it made |
| `SoukCounters.BuyerAcceptsOwnCounter` | apps/core-hub/src/modules/soukelkanto/soukelkanto.service.ts:791-861 | a run in which the buyer accepts the counter it made |
| `SoukPrices.ClosedBelowCounter` | apps/core-hub/src/modules/soukelkanto/soukelkanto.service.ts:694-861 | a run in which the buyer rewrites the seller's counter of 90 to 50 and accepts it |
| `SoukPrices.AmountIsLastNamed` | apps/core-hub/src/modules/soukelkanto/soukelkanto.service.ts:694-730 | in every run an offer stands at the amount its last carried-out edit named, or else at the one it was made with |
| `SoukPrices.SellersPriceIff` | apps/core-hub/src/modules/soukelkanto/soukelkanto.service.ts:616-730 | in every run an answer to a bid stands at the amount of the seller's counter exactly when the buyer named no other amount last |
| `SoukPrices.AmountUnread` | apps/core-hub/src/modules/soukelkanto/soukelkanto.service.ts:82-1702 | but for edits of the offer itself, every call decides and writes the same whatever amount an offer stands at |
| `SoukPrices.PriceNeverTold` | apps/core-hub/src/modules/soukelkanto/soukelkanto.service.ts:616-730 | for every reachable answer to a bid the same rows are reached by a run in which the seller named its amount and the buyer never touched it, and by one in which the seller named another |
| `SoukGuarantees.ReachableDisputes` | apps/core-hub/src/modules/soukelkanto/soukelkanto.service.ts:1525-1580 | a disputed offer has one dispute, between its buyer and its seller, and stays in a disputable status |
| `SoukDisputes.DisputeAdmission` | apps/core-hub/src/modules/soukelkanto/soukelkanto.service.ts:1534-1580 | a party may open a dispute exactly when the offer never had one and the deal is under way or finished at most 48 hours ago |
| `SoukDisputes.WindowStartsAtFinish` | apps/core-hub/src/modules/soukelkanto/soukelkanto.service.ts:1519-1564 | in every run the time the 48 hours are counted from is that of the carried-out call that took the deal from handover to CONFIRMED or CANCELLED |
| `SoukDisputes.FinishedOnce` | apps/core-hub/src/modules/soukelkanto/soukelkanto.service.ts:1131-1479 | in every run at most one call takes a deal from handover to its end |
| `SoukRecords.DisputeAsLastLeft` | apps/core-hub/src/modules/soukelkanto/soukelkanto.service.ts:1525-1700 | in every run a dispute names its offer, filer and other party, and the one verdict given on it, by whom and when |
| `SoukServices.ReportCounts` | apps/core-hub/src/modules/soukelkanto/soukelkanto.service.ts:1649-1676 | a report filed while resolving costs the other party severity 3: one row, and the stored score counts it from then on |
| `SoukThreads.WholeThreadExact` | apps/core-hub/src/modules/soukelkanto/soukelkanto.service.ts:733-772 | a root-to-leaf list holds exactly the offers with that root, once each, at most three, and is the only such list |
| `SoukRoles.StatusChangesJustified` | apps/core-hub/src/modules/soukelkanto/soukelkanto.service.ts:280-1479 | in every reachable state each status change of an offer has an entitled caller, an admissible earlier status and listing, or is the cascade of an accept on the same listing |
| `SoukRoles.NewOffersWellBorn` | apps/core-hub/src/modules/soukelkanto/soukelkanto.service.ts:397-1007 | every new offer is PENDING, in the band, on an ACTIVE listing, from the right party; counters inherit their thread and carry no hold |
| `SoukRoles.PriceChangesJustified` | apps/core-hub/src/modules/soukelkanto/soukelkanto.service.ts:694-730 | a price changes only while the offer is PENDING, by its buyer, to one in the band |
| `SoukTermination.StepGrows` | apps/core-hub/src/modules/soukelkanto/soukelkanto.service.ts:397-1479 | statuses only move forward along the life cycle; new offers are PENDING, and only createOffer opens a thread |
| `SoukTermination.NegotiationTerminates` | apps/core-hub/src/modules/soukelkanto/soukelkanto.service.ts:397-1479 | a run with n successful createOffer calls has at most 3n offers and 12n status changes |
| `SoukTermination.TerminalForever` | apps/core-hub/src/modules/soukelkanto/soukelkanto.service.ts:1448-1473 | an offer in a terminal status is never written again, over every continuation of the run |
| `SoukHandovers.ReachableHandshake` | apps/core-hub/src/modules/soukelkanto/soukelkanto.service.ts:1131-1180 | ACCEPTED has no handover row, HANDOVER_PENDING exactly one side, CONFIRMED both sides and the completion time |
| `SoukHandovers.SoldNeedsBothSides` | apps/core-hub/src/modules/soukelkanto/soukelkanto.service.ts:1131-1203 | a SOLD listing's run contains successful confirmations by the distinct buyer and seller of one offer |
| `SoukHandovers.RepeatChangesNothing` | apps/core-hub/src/modules/soukelkanto/soukelkanto.service.ts:1146-1162 | a second confirmation by the same side changes no row at all |
| `SoukHandovers.BothSidesSell` | apps/core-hub/src/modules/soukelkanto/soukelkanto.service.ts:1131-1203 | from ACCEPTED, confirmations by the two parties in either order sell the listing, with the right time stamps |
| `SoukCharges.ChargedOnce` | apps/core-hub/src/modules/soukelkanto/soukelkanto.service.ts:488-495 | the buyer has exactly one hold debit for an offer with a positive hold that reached ACCEPTED, none otherwise, apart from the user's own direct spends that imitate one |
| `SoukHolds.HoldDecides` | apps/core-hub/src/modules/soukelkanto/soukelkanto.service.ts:482-531 | in every reachable state, once the other guards of an accept pass: a positive hold is taken, exactly its price from the buyer's individual balance, when the activity is priced and active and the wallet covers it, and otherwise the hold fails and nothing is written; without a positive hold no token moves |
| `SoukCharges.BooksBalance` | libs/tokens/src/tokens.service.ts:38-126 | over every run each balance is the sum of its transactions and the total in circulation is what credits and charges issued |
| `SoukCharges.NeverOverdrawn` | libs/tokens/src/tokens.service.ts:92-111 | balances never go negative if no credit is negative, whatever the prices |
| `SoukCharges.HoldBooks` | apps/core-hub/src/modules/soukelkanto/soukelkanto.service.ts:488-495 | a charged hold takes exactly the configured price out of circulation and leaves the books explained by the log |
| `SoukCharges.HoldAsAnnouncedIff` | apps/core-hub/src/modules/soukelkanto/soukelkanto.service.ts:488-495 | a hold takes the announced amount exactly when holds are priced at that amount |
| `SoukCharges.ReleaseRefundsNothing` | apps/core-hub/src/modules/soukelkanto/soukelkanto.service.ts:1205-1215 | confirming or cancelling leaves every balance unchanged |
| `SoukInterleaving.CheckThenCommit` | apps/core-hub/src/modules/soukelkanto/soukelkanto.service.ts:469-531 | an accept call is its check followed by its charge and commit |
| `SoukInterleaving.DoubleAccept` | apps/core-hub/src/modules/soukelkanto/soukelkanto.service.ts:482-531 | two accepts on one listing checked in the same state and committed one after the other leave two live deals |
| `SoukInterleaving.DoubleAcceptReachable` | apps/core-hub/src/modules/soukelkanto/soukelkanto.service.ts:482-531 | two offers of two different buyers on one listing that both pass the accept check are reachable |
| `SoukInterleaving.CommitSafeIff` | apps/core-hub/src/modules/soukelkanto/soukelkanto.service.ts:500-531 | a late commit keeps at most one live deal exactly when no other offer on the listing is live |
| `SoukInterleaving.RecheckRepairs` | apps/core-hub/src/modules/soukelkanto/soukelkanto.service.ts:482-531 | if the commit re-reads the listing status, one live deal survives every interleaving of calls and late commits |
| `SoukInterleaving.WithdrawnAccepted` | apps/core-hub/src/modules/soukelkanto/soukelkanto.service.ts:482-531 | with the listing re-read alone, a run in which a stale commit accepts an offer withdrawn after the check |
| `SoukInterleaving.FullRecheckRepairs` | apps/core-hub/src/modules/soukelkanto/soukelkanto.service.ts:482-531 | if the commit re-reads the listing and the offer, the whole joint invariant survives every interleaving |
| `TokenLedger.PostAgrees` | libs/tokens/src/tokens.service.ts:108-122 | adjusting a balance with its transaction keeps every balance and the total explained by the log |
| `TokenLedger.SpendSafe` | libs/tokens/src/tokens.service.ts:78-126 | a spend never overdraws, takes exactly the price out of circulation and touches no other wallet |
| `TokenLedger.CreditSafe` | libs/tokens/src/tokens.service.ts:38-75 | a credit adds exactly its amount to circulation and touches no other wallet |
| `SoukRecords.PricingAsLastSet` | libs/tokens/src/tokens.service.ts:236-246 | in every run the price of an activity is as last set |
| `SoukRecords.AllocationAsLastSet` | libs/tokens/src/tokens.service.ts:129-166 | in every run an earmark is the amount of the last carried-out allocation |
| `LifeModel.UpdateKeepsForestIff` | apps/core-hub/src/modules/life/life.service.ts:139-188 | an update that goes through keeps the hierarchy a forest exactly when it does not move a location into its own subtree |
| `LifeModel.ForestThroughoutIff` | apps/core-hub/src/modules/life/life.service.ts:12-204 | over every run from the empty store the hierarchy is a forest all along exactly when no carried-out move enters the moved subtree |
| `LifeModel.GuardTooWeak` | apps/core-hub/src/modules/life/life.service.ts:160-172 | a two-node move passes the guard and makes a cycle |
| `LifeModel.CreateKeepsForest` | apps/core-hub/src/modules/life/life.service.ts:12-45 | creation keeps the hierarchy a forest |
| `LifeModel.DeleteKeepsForest` | apps/core-hub/src/modules/life/life.service.ts:190-204 | deleting a whole subtree keeps the rest a forest |
| `LifeModel.ReachableClosed` | prisma/schema.prisma:675-679 | after every run, cycles or not, the parent of every location exists |
| `LifeHistory.AsLastLeft` | apps/core-hub/src/modules/life/life.service.ts:12-204 | in every run the table holds exactly the locations created and not deleted with a subtree, under the name and parent named last |
| `LifeHistory.AdmissionIff` | apps/core-hub/src/modules/life/life.service.ts:12-188 | a location is created or moved exactly under an existing one other than itself, or under none |
| `LifeModel.ClimbEndsIffRooted` | apps/core-hub/src/modules/life/life.service.ts:67-83 | the breadcrumb loop reaches a root after some number of steps exactly from locations with a finite path |
| `LifeCycles.TraversalEndsIff` | apps/core-hub/src/modules/life/life.service.ts:119-134 | the recursion ends exactly when it does not start on a cycle; from the top it always ends |
| `LifeCycles.ListedExactly` | apps/core-hub/src/modules/life/life.service.ts:119-134 | on every store the tree of a parent off the cycles holds exactly the locations below it, once each; the full tree exactly those under a root, leaving cycles out |
| `LifeCycles.EnclosedByBreadcrumbs` | apps/core-hub/src/modules/life/life.service.ts:119-134 | on every store the chain enclosing a location in the full tree is its breadcrumb path, and every location with such a path is there |
| `LifeTrees.HierarchyAgrees` | apps/core-hub/src/modules/life/life.service.ts:119-134 | on a forest the full tree lists every location exactly once, enclosed by exactly its breadcrumbs |
| `OtpGuarantees.MinuteApart` | apps/core-hub/src/modules/auth/otp.service.ts:81-101 | in every run, whatever the clock does, a phone's later challenge is created at least a minute after its earlier ones |
| `OtpGuarantees.FivePerHour` | apps/core-hub/src/modules/auth/otp.service.ts:81-109 | in every run, whatever the clock does, every window of an hour, at any alignment, has at most five challenges of one phone |
| `OtpGuarantees.OneAnswerable` | apps/core-hub/src/modules/auth/otp.service.ts:61-70 | after every run up to now a phone has at most one unconsumed, unexpired challenge, and it is the newest |
| `OtpGuarantees.AttemptsBound` | apps/core-hub/src/modules/auth/otp.service.ts:138-162 | in every run, whatever the clock does, each challenge sees at most the configured number of comparisons |
| `OtpAnswers.LetInIff` | apps/core-hub/src/modules/auth/otp.service.ts:53-164 | in every run, after the millisecond in which the last code was sent, a submission lets the user in exactly when it is that code, in its lifetime, unused, after fewer than the permitted number of wrong ones |
| `OtpAnswers.GoodCodeAnswers` | apps/core-hub/src/modules/auth/otp.service.ts:131-164 | in every run, by any clock, while the last code is good for another try: expired after its lifetime, that code lets in, any other is incorrect |
| `OtpAnswers.SpentCodeRefused` | apps/core-hub/src/modules/auth/otp.service.ts:126-151 | once the last code is used or exhausted, nothing lets the user in and nothing is compared until another is sent |
| `OtpAnswers.OtherWayIn` | apps/core-hub/src/modules/auth/otp.service.ts:61-70 | the one other way in: in the very millisecond of sending, the last code being used up, an earlier code whose lifetime ends in that millisecond |
| `OtpAnswers.OldCodeAtItsLastMoment` | apps/core-hub/src/modules/auth/otp.service.ts:61-70 | a run in which that happens |
| `OtpGuessing.GuessBound` | apps/core-hub/src/modules/auth/otp.service.ts:53-164 | for every lifetime and in every clock-ordered run any hour has at most six times the permitted attempts in comparisons against one phone |
| `OtpGuessing.GuessBoundDefault` | apps/core-hub/src/modules/auth/otp.service.ts:53-164 | at most thirty comparisons in any hour with the default attempts |
| `OtpGuessing.GuessBoundAttained` | apps/core-hub/src/modules/auth/otp.service.ts:53-164 | for every positive lifetime and every number of attempts some clock-ordered run reaches the bound |
| `OtpModel.NewestPending` | apps/core-hub/src/modules/auth/otp.service.ts:126-129 | the query returns the phone's unconsumed challenge with the latest creation time |
| `OtpGuarantees.NewestIsLast` | apps/core-hub/src/modules/auth/otp.service.ts:126-129 | in every run that challenge is also the one inserted last: creation times of a phone never tie |
| `RateLimitBounds.AnyWindowBound` | libs/gateway/src/rate-limit/in-memory-rate-limit.strategy.ts:15-32 | any half-open window of the configured length admits at most two quotas less one request, a quota being maxRequests - 1; one quota if the window is a single millisecond |
| `RateLimitBounds.BoundAttained` | libs/gateway/src/rate-limit/in-memory-rate-limit.strategy.ts:15-32 | for every tier, whatever its window and quota, a clock-ordered run reaches the bound |
| `RateLimitBounds.DefaultMinute` | libs/gateway/src/rate-limit/rate-limit-tiers.ts:12-17 | with the default tiers any minute admits at most 57, 117, 237 and 597 requests of an anonymous, user, business and admin actor |
| `RateLimitBounds.DefaultMinuteReached` | libs/gateway/src/rate-limit/rate-limit-tiers.ts:12-17 | each of these numbers is reached |
| `RateLimitBounds.FirstOnesAdmitted` | libs/gateway/src/rate-limit/in-memory-rate-limit.strategy.ts:19-26 | a request is admitted exactly when it is among the first maxRequests - 1 since its bucket opened |
| `RateLimitBounds.RetryHelpsIff` | libs/gateway/src/rate-limit/rate-limit.guard.ts:59-63 | a rejected actor that waits Retry-After seconds is admitted exactly when maxRequests is at least two |
| `RateLimitBounds.RemainderMeans` | libs/gateway/src/rate-limit/in-memory-rate-limit.strategy.ts:26-31 | the request that follows n others in the bucket is admitted exactly when n + 1 is less than the announced remainder |
| `RateLimitActors.OneKeyIff` | libs/gateway/src/rate-limit/rate-limit.guard.ts:78-84 | two requests share a bucket exactly when their roles are of one class and they come from one signed-in user or, not signed in, one address |
| `RateLimitActors.ClassIff` | libs/gateway/src/rate-limit/rate-limit.guard.ts:68-76 | the class of each role, up to case |
| `RateLimitActors.OnlyOwnVisitsCount` | libs/gateway/src/rate-limit/rate-limit.guard.ts:36-66 | over every run a request is let through or not by the visits of its own actor alone |
| `RateLimitActors.OtherUsersDoNotCount` | libs/gateway/src/rate-limit/rate-limit.guard.ts:36-84 | over every run a visit by another signed-in user, whenever made, changes nothing |
| `RateLimitActors.TierIsOfClass` | libs/gateway/src/rate-limit/rate-limit.guard.ts:51 | a request is charged to the tier of its class, or to the anonymous one |
| `ScrubGuarantees.Noninterference` | libs/logging/src/scrub/scrub.ts:89-137 | for every choice of extra keys, graphs that agree on the objects the walk enters, up to the class of values under denied keys, scrub to equal outputs; what only denied keys lead to may differ at will |
| `ScrubGuarantees.NestedSecret` | libs/logging/src/scrub/scrub.ts:112-136 | whatever object lies under a denied key, the output is the same |
| `ScrubKeys.KeyPolicy` | libs/logging/src/scrub/scrub.ts:10-53 | a key is redacted exactly when it equals, up to case, one of the listed or requested keys and none of the tracing keys |
| `ScrubKeys.ObjectScrubbed` | libs/logging/src/scrub/scrub.ts:89-137 | wherever the walk meets an object: the same items or keys in the same order, each redacted if its key is secret, unchanged if a string or primitive under another key, scrubbed in turn if an object, cut short if met before |
| `ScrubKeys.RedactionMeans` | libs/logging/src/scrub/scrub.ts:68-83 | under a secret key a string becomes a redaction mark that tells tokens and bearer headers apart, undefined and null stay, all else becomes null |
| `ScrubKeys.TokenMeans` | libs/logging/src/scrub/scrub.ts:58 | a string counts as a token exactly when it is three non-empty url-safe segments joined by dots |
| `ScrubKeys.OutputClean` | libs/logging/src/scrub/scrub.ts:68-137 | for every graph and every choice of extra keys, at no depth of the output does anything but undefined, null or a redaction mark stand under a secret key |
| `ScrubGuarantees.RedactionRevealsClass` | libs/logging/src/scrub/scrub.ts:68-83 | two values redact alike exactly when they agree in kind and in JWT and bearer shape |
| `ScrubGuarantees.EnteredOnce` | libs/logging/src/scrub/scrub.ts:98-101 | the output has one container for each object newly marked as seen |
| `ScrubGuarantees.OutputBounded` | libs/logging/src/scrub/scrub.ts:89-137 | the output has no more containers than the graph has objects, cyclic or not |
| `ExpressGuarantees.IntervalsDisjoint` | apps/core-hub/src/modules/express/express.service.ts:228-329 | two deliveries of one courier have disjoint accept-to-deliver intervals in every run |
| `ExpressGuarantees.OneActive` | apps/core-hub/src/modules/express/express.service.ts:240-244 | in every run, whatever the clock does, a courier has at most one accepted or picked-up delivery |
| `ExpressGuarantees.AssignedFromAcceptance` | apps/core-hub/src/modules/express/express.service.ts:257-266 | a delivery names a courier exactly from acceptance on; a courier under review is offline |
| `ExpressGuarantees.CourierFixed` | apps/core-hub/src/modules/express/express.service.ts:228-329 | the courier of an accepted delivery never changes over any continuation |
| `ExpressHistory.CarriedOutIff` | apps/core-hub/src/modules/express/express.service.ts:52-357 | a call is carried out exactly when a table of rights over the columns allows it; a delivery is accepted exactly by an approved courier who is online with nothing on the way |
| `ExpressHistory.RefusalsTruthful` | apps/core-hub/src/modules/express/express.service.ts:52-357 | the error of a refusal reports a fact about the columns, and nothing is written |
| `ExpressHistory.StampsWitnessed` | apps/core-hub/src/modules/express/express.service.ts:228-329 | in every run each stage a delivery reached was reached by a carried-out call of its one courier, at the time stamped on it |
| `ExpressHistory.AcceptedByFreeCourier` | apps/core-hub/src/modules/express/express.service.ts:228-267 | every acceptance of a run was by an approved courier, online, with nothing on the way |
| `ExpressHistory.CourierAsLastSet` | apps/core-hub/src/modules/express/express.service.ts:52-178 | in every run approval and the online flag are as the calls last gave them |
| `ExpressHistory.CourierAsSubmitted` | apps/core-hub/src/modules/express/express.service.ts:52-125 | in every run couriers are those who registered, under their first id and last national id |
| `TrustGuarantees.StoredScoreAgrees` | libs/trust-score/src/trust-score.service.ts:41-49 | after every run a stored score is the calculated one over all reports at the time it was last written |
| `TrustGuarantees.ScoreOrderless` | libs/trust-score/src/trust-score.calculator.ts:47-70 | the result depends on the multiset of reports, not their order |
| `TrustGuarantees.ScoreRange` | libs/trust-score/src/trust-score.calculator.ts:52-64 | the score lies in 0..100, the bonus in 0..20, the penalty is at most 40 a report |
| `TrustGuarantees.ReportNeverHelps` | libs/trust-score/src/trust-score.calculator.ts:47-70 | one more report never raises the score, lifts a ban, or costs more than 40 points |
| `TrustGuarantees.AgeNeverHurts` | libs/trust-score/src/trust-score.calculator.ts:57-64 | with the same reports a later time never lowers the score |
| `TrustSeverities.ReportCosts` | libs/trust-score/src/trust-score.calculator.ts:52-55 | one more report raises the penalty by eight points for each step of its severity, from 0 to 5 |
| `TrustSeverities.SeverityNeverHelps` | libs/trust-score/src/trust-score.calculator.ts:47-70 | making a report more severe never raises the score |
| `TrustSeverities.NoReportsFullScore` | libs/trust-score/src/trust-score.calculator.ts:47-70 | without reports and with the defaults the score is 100 |
| `TrustSeverities.BonusMeans` | libs/trust-score/src/trust-score.calculator.ts:57-61 | two points for every full thirty days, up to twenty |
| `TrustSeverities.BanMeaning` | libs/trust-score/src/trust-score.calculator.ts:63-67 | with the defaults a ban means a platform-wide flag, or severities that outweigh the bonus by eighty points |
| `TrustSeverities.StoredScoreMeans` | libs/trust-score/src/trust-score.service.ts:21-49 | after every run with the defaults a stored score is 100 less eight points per step of severity plus the bonus at the last scoring, between 0 and 100 |
| `TrustSeverities.FilingScores` | apps/core-hub/src/modules/reports/reports.service.ts:35-61 | filing between known users appends the report and stores the score that counts it; an unknown reporter is refused |
| `SoukServices.SoukService.AssertCounterDepthAllowed` | apps/core-hub/src/modules/soukelkanto/soukelkanto.service.ts:1080-1096 | the loop computes the capped ancestor walk |
| `SoukServices.SoukService.AcceptTransaction` | apps/core-hub/src/modules/soukelkanto/soukelkanto.service.ts:500-531 | the cascade, the acceptance and the reservation as one transaction |
| `SoukServices.SoukService.AddCounter` | apps/core-hub/src/modules/soukelkanto/soukelkanto.service.ts:622-650 | status, listing, band and depth guards in order, then parent and child are written |
| `SoukServices.SoukService.ConfirmHandover` | apps/core-hub/src/modules/soukelkanto/soukelkanto.service.ts:1131-1180 | stamps the caller's side once; the second side finalises; returns the row before finalisation |
| `SoukServices.SoukService.ResolveDispute` | apps/core-hub/src/modules/soukelkanto/soukelkanto.service.ts:1624-1680 | settles an open dispute once; on request it also files a severity-3 report on the other party, which updates the trust tables, and a failing report changes nothing |
| `SoukServices.SoukService.Ascend` | apps/core-hub/src/modules/soukelkanto/soukelkanto.service.ts:735-748 | terminates on every store; on threads reaches the root, having marked the root's child unless it started there |
| `SoukServices.SoukService.Descend` | apps/core-hub/src/modules/soukelkanto/soukelkanto.service.ts:757-769 | terminates on every store with a repeat-free chain of child links that enters no marked offer |
| `SoukServices.SoukService.GetOfferChain` | apps/core-hub/src/modules/soukelkanto/soukelkanto.service.ts:734-772 | terminates on every store; on threads it yields the whole thread exactly when called on the root, and the root alone on any other member |
| `SoukServices.SoukService.GetOfferChainRepaired` | apps/core-hub/src/modules/soukelkanto/soukelkanto.service.ts:733-772 | with a fresh visited set every member yields the whole thread it belongs to |
| `TokensServices.TokensService.Spend` | libs/tokens/src/tokens.service.ts:78-126 | pricing, wallet and balance checks in order, then the debit and its transaction |
| `LifeServices.LifeService.DeleteLocation` | apps/core-hub/src/modules/life/life.service.ts:193-204 | on every store whose parents exist, cyclic or not, the cascade removes exactly the subtree |
| `LifeServices.LifeService.GetLocation` | apps/core-hub/src/modules/life/life.service.ts:50-89 | terminates on rooted locations and returns exactly the root-to-parent path |
| `LifeServices.LifeService.GetSubtreeHierarchy` | apps/core-hub/src/modules/life/life.service.ts:119-134 | from the top, and from every parent that is not on a cycle, the recursion ends and lists what lies below the parent once, each under its path |
| `OtpServices.OtpService.EnforcePerPhoneThrottle` | apps/core-hub/src/modules/auth/otp.service.ts:81-109 | minute gap first, then the hourly cap |
| `OtpServices.OtpService.Issue` | apps/core-hub/src/modules/auth/otp.service.ts:53-74 | supersedes the phone's live challenges and appends the new one |
| `OtpServices.OtpService.Verify` | apps/core-hub/src/modules/auth/otp.service.ts:120-164 | expiry, attempts and code checks in order, with their writes |
| `RateLimitServices.RateLimitGuard.CanActivate` | libs/gateway/src/rate-limit/rate-limit.guard.ts:36-66 | admits exactly when something remains after counting, and announces the wait otherwise |
| `Scrubbers.Scrubber.ScrubInto` | libs/logging/src/scrub/scrub.ts:89-137 | the marking recursion computes the specified output and the specified set of seen objects, and terminates on every graph |
| `Scrubbers.Scrubber.ScrubArray` | libs/logging/src/scrub/scrub.ts:108-110 | items are scrubbed in order, sharing the growing set of seen objects |
| `Scrubbers.Scrubber.ScrubRecord` | libs/logging/src/scrub/scrub.ts:112-136 | the key loop: tracing keys, denied keys, nested values |
| `ExpressServices.ExpressService.AcceptDelivery` | apps/core-hub/src/modules/express/express.service.ts:228-267 | guards in order, then the assignment |
| `TrustServices.ReportsService.File` | apps/core-hub/src/modules/reports/reports.service.ts:35-61 | appends the report, then the offender's stored score is up to date |

## Handlers

The remaining service methods do one thing each. The contract of each names the function of the `…Model` module that
gives the new tables and the answer, and says that a refusal writes nothing.

| class | source | methods and their lines |
|---|---|---|
| `SoukServices.SoukService` | apps/core-hub/src/modules/soukelkanto/soukelkanto.service.ts | `CreateListing` 82-154, `UpdateListing` 253-278, `DeleteListing` 280-313, `CreateOffer` 397-449, `UpdateMany` 297-305, `LockTokens` 488-495, `AcceptOffer` 469-531, `BuyerAcceptCounter` 791-861, `DeclineOffer` 580-606, `BuyerDeclineCounter` 913-943, `WithdrawOffer` 662-683, `UpdateOffer` 694-730, `CounterOffer` 616-650, `BuyerCounterOffer` 957-998, `FinalizeHandover` 1182-1215, `CancelOffer` 1448-1492, `CreateDispute` 1525-1580, `RejectDispute` 1683-1700 |
| `TokensServices.TokensService` | libs/tokens/src/tokens.service.ts | `Credit` 38-75, `Allocate` 129-166, `GetWallet` 169-195, `SetActivityPricing` 236-246 |
| `LifeServices.LifeService` | apps/core-hub/src/modules/life/life.service.ts | `CreateLocation` 12-45, `UpdateLocation` 139-188 |
| `RateLimitServices.InMemoryRateLimitStrategy` | libs/gateway/src/rate-limit/in-memory-rate-limit.strategy.ts | `Consume` 15-32, `Reset` 34-36 |
| `Scrubbers.Scrubber` | libs/logging/src/scrub/scrub.ts | `ScrubRoot` 89-101 |
| `ExpressServices.ExpressService` | apps/core-hub/src/modules/express/express.service.ts | `CreateCourier` 52-125, `ToggleOnline` 165-178, `CreateDeliveryRequest` 334-357, `GetActiveDelivery` 209-223, `PickupDelivery` 272-298, `CompleteDelivery` 303-329 |
| `TrustServices.TrustScoreService` | libs/trust-score/src/trust-score.service.ts | `Compute` 21-38, `Recalculate` 41-49 |

## Left out

- Controllers, portals, DTO validation, modules, configuration and bootstrap: wiring around the modelled services.
- Notifications, events, logging, WhatsApp, AI and storage calls: effects that never reach the modelled tables.
- Failures and interleavings inside one call: calls are atomic, except for the two-phase accept in `SoukInterleaving`.
- Descriptive columns (titles, notes, reasons, phone numbers, view and favourite counters), the creation and per-status time stamps of offers and the time stamps of listings: no modelled guard reads them, and what `SoukPrices.PriceNeverTold` says of the rows it says of the modelled columns.
- Listing search, paging, statistics, safe spots, contact reveal, ratings and favourites: queries or small upserts that would only add easy members.
- The incident type of a report filed while resolving a dispute, and its id on the dispute row: nothing modelled reads them.
- Token allocations as budgets: an allocation is compared with the balance once, so no lasting property holds.
- Hashing, random codes and the development bypass: hashes are taken to be injective, codes are arguments, the bypass is off.
- Deletion of expired OTP rows by a nightly job: rows stay in the table.
- The Redis rate-limit strategy, an unimplemented stub, and the internal rate-limit tier, which no request resolves to; a custom tier table is taken to have an anonymous entry.
- Order among sibling locations: siblings are visited in any order, since the collation of names is the database's.
- Upper and lower case outside ASCII, functions and symbols as object values, and prototype keys in the scrubber.
- The demo courier account: the development switch is off.
- TokensServices.TokensService.GetWallet: returns the two balances; the view's allocations and ten most recent transactions are display only.
- LifeServices.LifeService.GetLocation: requires a finite path for the location, because otherwise the loop of the code does not end (`LifeModel.ClimbEndsIffRooted`).
- LifeServices.LifeService.GetSubtreeHierarchy: requires a parent that is not on a cycle, because otherwise the recursion of the code does not end (`LifeCycles.TraversalEndsIff`).
