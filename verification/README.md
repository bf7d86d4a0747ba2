# Verified model of the commerce backend

This project models the parts of the backend that keep money, stock and background work consistent
through explicit transactions, and proves what those transactions keep over every run.

* **Cash ledger** (`CashTypes`, `CashLedger`, `CashInvariant`, `Cash*Proof`, `CashTheorems`,
  `CashSettlement`, `CashDiscrepancyRuns`, `CashEffects`, `CashAnswers`, `CashService`). Collections,
  remittances, discrepancies and orders, changed by recording, creating, submitting, reconciling and
  resolving.
* **Durable outbox** (`OutboxTypes`, `OutboxProof`, `OutboxTheorems`, `OutboxDeadLetters`,
  `OutboxEffects`, `OutboxWorker`). Leases, retries, dead letters and notification deliveries by
  competing workers. A work record outlives the claim it was issued for, and may be finished at any
  later time or never.
* **Checkout pricing** (`Money`, `Allocation`, `AllocationGreed`, `Rates`, `CheckoutPricing`,
  `CourierAgreement`, `CheckoutProof`, `CourierMeaning`, `DeliveryFacts`, `QuoteFacts`, `OrderStock`,
  `QuoteRefusals`, `OrderRefusals`, `CheckoutService`). The quote path and the order path over one
  snapshot, the greedy stock allocator and the choice of delivery rates.
* **Checkout store** (`StoreTypes`, `StoreProof`, `StoreTheorems`, `StoreStaleStart`, `StoreEffects`,
  `StoreService`). Orders, carts, idempotency claims, stock reservations and the sweep that
  expires them. The order transaction calls the whole pricing path on a view of these tables.
* **Catalogue** (`PriceFilter`, `Publication`, `PublicationProof`, `PublicationEffects`,
  `PublicationService`). The price filter as a database predicate under three-valued logic, and the
  product and variant state machine whose invariant gives the filter its hypothesis.
* **CSV records** (`Csv`, `CsvGrammar`) and **onboarding claims** (`Onboarding`, `OnboardingEffects`).

## How it is built

A transaction is a function from tables to tables, and a run is a sequence of transactions by any
number of actors. Tables are sequences; a row's id is its position, or an integer where the source
compares ids, so that the order of ids is the order of integers. Rows a request read before its
transaction, work records and claims are part of the state, so stale ones can be used at any time.
Theorems speak of every reachable state or of every run. Each service is also written in the
form of the source, as a class over the tables or as a method with the source's loops, and its
contract equates the new tables and the answer with the function. What these functions write and
answer is stated once more on the columns alone, without them: `*Effects`, `*Answers`, `*Facts`,
`*Refusals`, `OrderStock` and `CsvGrammar` say which rows change to what, which are equal, and what
each answer says of the tables.

## What the code does differently from what one might expect

* A positive minimum price hides every product without a base price, because `NOT` of an unknown is
  unknown; a product with nothing to sell is shown at 0 but passes no maximum of 0; and the filter
  counts the list price of a shown variant that is not sold (`UnsellableVariantMisleads`).
  `AgreeExactly` says for which products filter and display agree on every range.
* A checkout reads its clock before it waits for its locks. One that started before the latest order
  may still count a reservation that has since expired beside the one that took its place, and then
  answers INVENTORY_INVARIANT_BREACH although nothing is oversold. The error is dead for
  transactions in start order (`BreachIsDead`); `BreachAnswersExactly` says when it is the answer, and
  `StaleStartBreaches` is a run in which it is.
* A dead-lettered event may belong to a notification that is still being delivered
  (`SweepOutrunsDelivery`); the two are dead-lettered together exactly by a failing delivery
  (`DeadLetteredTogether`), and never later (`NeverDeadLetteredLater`).
* The row limit of the CSV parser is checked at line ends only, so an unterminated last record may
  be the 2002nd (`RecordsExactly`, `OneRecordTooMany`); and the CR of a line end counts towards the
  length of the last cell (`RoundTrip`).
* Reconciling passes its first check on a remittance in DISCREPANCY, but the update asks for
  SUBMITTED, so only a submitted one is ever reconciled (`ReconcileSucceeds`). Resolving a partial
  collection by exact count moves it to COLLECTED although the transition table has no such entry;
  that and the voiding of a cancelled order are the only such steps (`TransitionsExactly`,
  `PartialBecomesCollected`).
* Another live collection of an order whose amount is out of range makes an exact count fail with
  INVALID_MILLIMES (`ResolveCollectionSucceeds`, `AmountStopsCount`).
* The quote reads its clock a second time for the rates of a courier delivery. Whenever one of the two
  can be had without a negative fee, quote and order agree exactly if both readings choose the same
  rates (`CourierAgrees`, `OrderRefinesQuote`), which a rate that starts or ends in between may prevent
  (`RateChangeMisleads`).

## Model

| member | source | states |
|---|---|---|
| CashTheorems.ApplyInv | apps/api/src/cash/admin-cash.service.ts:480-1674 | Every transaction, done or refused, keeps the ledger invariant: allocations within the accountable amount, at most one recorded collection an order, balanced remittances, CASH_REMITTED only when settled |
| CashTheorems.CashConservation | apps/api/src/cash/admin-cash.service.ts:1577-1674 | In every reachable ledger the expected cash of all CASH_REMITTED orders is at most the total of verified remittances |
| CashTheorems.VerifiedBalances | apps/api/src/cash/admin-cash.service.ts:1032-1133 | A verified remittance has verified = declared = the sum of its allocations |
| CashTheorems.RemittedOrder | apps/api/src/cash/admin-cash.service.ts:1630-1673 | A CASH_REMITTED order has one live collection, REMITTED, whose verified allocations are exactly its expected cash; all others are voided |
| CashSettlement.CashRemittedExactly | apps/api/src/cash/admin-cash.service.ts:1577-1674 | An order is CASH_REMITTED exactly when its only live collection is REMITTED for the expected cash |
| CashSettlement.TransitionsExactly | apps/api/src/cash/cash-state-policy.ts:3-9 | A step that changes a collection status follows the transition table exactly unless it cancels the order or resolves a partial collection |
| CashDiscrepancyRuns.PartialBecomesCollected | apps/api/src/cash/admin-cash.service.ts:1302-1306 | A reachable ledger in which an exact count turns a partial collection COLLECTED |
| CashDiscrepancyRuns.AmountStopsCount | apps/api/src/cash/admin-cash.service.ts:1275-1281 | A reachable ledger in which another live collection makes an exact count fail with INVALID_MILLIMES |
| CashTheorems.NeverOverAllocated | apps/api/src/cash/admin-cash.service.ts:916-938 | Allocations over all remittances in any status never exceed what a collection answers for, and there are none while its discrepancy is unresolved |
| CashTheorems.RemittedExactly | apps/api/src/cash/admin-cash.service.ts:1594-1625 | A collection answering for a positive amount is REMITTED exactly when its verified allocations equal that amount |
| CashTheorems.AccountableFrozen | apps/api/src/cash/admin-cash.service.ts:1229-1240 | From its first allocation on, the accountable amount of a collection never changes in any run |
| CashTheorems.RecordSucceeds | apps/api/src/cash/admin-cash.service.ts:480-578 | The exact condition for recording a collection; the delivery-linkage, transition and second-key guards never cause a refusal |
| CashTheorems.CreateSucceeds | apps/api/src/cash/admin-cash.service.ts:835-982 | A remittance is created exactly when its allocations are distinct, positive, sum to the declared amount and each fits in what its settled, remittable collection still answers for to that active courier |
| CashTheorems.SubmitSucceeds | apps/api/src/cash/admin-cash.service.ts:984-1030 | Submitting succeeds exactly on a draft: the total guard never fires |
| CashTheorems.ReconcileSucceeds | apps/api/src/cash/admin-cash.service.ts:1032-1133 | The exact condition for reconciling; the total, collection-state, over-allocation and linkage guards never cause a refusal |
| CashTheorems.ResolveCollectionSucceeds | apps/api/src/cash/admin-cash.service.ts:1169-1404 | The exact condition for resolving a collection discrepancy, for every ledger: an exact count also needs the first other live collection of the order to have an amount in range |
| CashTheorems.ResolveCollectionRefusals | apps/api/src/cash/admin-cash.service.ts:1169-1404 | A resolution is never refused for its linkage, state, payment status or an allocation, and for an amount out of range only when that first other collection blocks it |
| CashTheorems.ResolveRemittanceSucceeds | apps/api/src/cash/admin-cash.service.ts:1406-1522 | The exact condition for resolving a remittance discrepancy; the application of its allocations never fails |
| CashTheorems.ResolutionClearsOrder | apps/api/src/cash/admin-cash.service.ts:1255-1330 | An exact count returns the order to its collected status exactly when all its other collections are voided |
| CashTheorems.RunExtends | apps/api/src/cash/cash-state-policy.ts:3-44 | Over any run CASH_REMITTED is never left, recorded amounts and settled discrepancies stay, REMITTED and VOIDED rows and verified remittances never change, allocations are only added |
| CashTheorems.RecordedOnce | apps/api/src/cash/admin-cash.service.ts:503-523 | After a collection is recorded, the same key and body replays it for ever, the same key with another body conflicts, any other key is refused; nothing changes |
| CashTheorems.OneRecordedPerOrder | apps/api/src/cash/admin-cash.service.ts:524-540 | At most one collection of an order is ever recorded in a run |
| CashTheorems.WrittenOffForever | apps/api/src/cash/admin-cash.service.ts:1343-1357 | After a write-off the order stays RECONCILIATION_DISCREPANCY for ever |
| CashService.AdminCashService.RecordCollection | apps/api/src/cash/admin-cash.service.ts:480-684 | The recorded tables are the specified ledger, with the specified outcome; RecordWrites and RecordAnswers say what these are on the columns |
| CashService.AdminCashService.RequestedAmounts | apps/api/src/cash/admin-cash.service.ts:907-912 | The map built from a request holds exactly the requested amount of each collection |
| CashService.AdminCashService.AlreadyAllocated | apps/api/src/cash/admin-cash.service.ts:913-919 | The map holds for each wanted collection the sum of all its allocations |
| CashService.AdminCashService.CreateRemittance | apps/api/src/cash/admin-cash.service.ts:835-982 | Creates the remittance and its items, or leaves every table as it was with the first refusal met in id order |
| CashService.AdminCashService.SubmitRemittance | apps/api/src/cash/admin-cash.service.ts:984-1030 | Tables and outcome are those specified; SubmitWrites and SubmitAnswers say what these are on the columns |
| CashService.AdminCashService.ApplyVerifiedAllocations | apps/api/src/cash/admin-cash.service.ts:1577-1674 | The item loop, the map of counted amounts and the order loop together mark exactly the fully counted collections and the fully remitted orders |
| CashService.AdminCashService.ReconcileRemittance | apps/api/src/cash/admin-cash.service.ts:1032-1133 | The loops over items and orders and the roll-back give the specified ledger and answer; ReconcileDiffers, ReconcileMatches and ReconcileAnswers say what these are on the columns |
| CashService.AdminCashService.OrderProjection | apps/api/src/cash/admin-cash.service.ts:1255-1300 | The loop adds up the live collections of an order until one is not settled or has an amount out of range |
| CashService.AdminCashService.ResolveCollectionDiscrepancy | apps/api/src/cash/admin-cash.service.ts:1169-1404 | Tables and outcome are those specified, for exact counts and write-offs; ResolveCollectionCounts and ResolveCollectionWritesOff say what these are on the columns |
| CashService.AdminCashService.ResolveRemittanceDiscrepancy | apps/api/src/cash/admin-cash.service.ts:1406-1522 | Tables and outcome are those specified, for exact counts and write-offs; ResolveRemittanceCounts and ResolveRemittanceWritesOff say what these are on the columns |
| CashEffects.OnlyDoneWrites | apps/api/src/cash/admin-cash.service.ts:480-1674 | A transaction of the cash service that is not done leaves every table as it was |
| CashEffects.RecordWrites | apps/api/src/cash/admin-cash.service.ts:592-684 | A recording, column by column: status and amount of the collection, the discrepancy if the amount differs, payment status and version of its order, cash and version of its delivery; every other row is equal |
| CashEffects.CreateWrites | apps/api/src/cash/admin-cash.service.ts:940-982 | A new draft with the declared total and one item for each allocation in the order asked; nothing else changes |
| CashEffects.SubmitWrites | apps/api/src/cash/admin-cash.service.ts:1001-1030 | The draft becomes SUBMITTED with its receiver; nothing else changes |
| CashEffects.ReconcileDiffers | apps/api/src/cash/admin-cash.service.ts:1061-1120 | A count that differs puts the remittance in DISCREPANCY with what was verified, the difference and an open discrepancy, and makes each order it concerns RECONCILIATION_DISCREPANCY with its version raised; every other row is equal |
| CashEffects.ReconcileMatches | apps/api/src/cash/admin-cash.service.ts:1061-1133 | A count that matches makes the remittance VERIFIED without a difference, its collections that are now paid in full REMITTED and the orders this pays off CASH_REMITTED; every other row is equal |
| CashEffects.ResolveRemittanceCounts | apps/api/src/cash/admin-cash.service.ts:1406-1522 | An exact count of a remittance in discrepancy does the same and settles its only discrepancy |
| CashEffects.ResolveRemittanceWritesOff | apps/api/src/cash/admin-cash.service.ts:1406-1522 | A write-off of a remittance only settles its discrepancy |
| CashEffects.ResolveCollectionCounts | apps/api/src/cash/admin-cash.service.ts:1169-1404 | An exact count makes the collection COLLECTED and settles its discrepancy; order and delivery are settled with it exactly if it is the only live collection |
| CashEffects.ResolveCollectionWritesOff | apps/api/src/cash/admin-cash.service.ts:1169-1404 | A write-off of a collection only settles its discrepancy |
| CashAnswers.RecordAnswers | apps/api/src/cash/admin-cash.service.ts:480-578 | Each refusal of a recording holds on the columns it speaks of, and a replay is answered exactly to the same key and body |
| CashAnswers.CreateAnswers | apps/api/src/cash/admin-cash.service.ts:835-938 | Each refusal of a new remittance holds on the columns it speaks of |
| CashAnswers.SubmitAnswers | apps/api/src/cash/admin-cash.service.ts:984-1008 | Submitting is answered by the remittance and its status alone |
| CashAnswers.ReconcileAnswers | apps/api/src/cash/admin-cash.service.ts:1032-1060 | The guards of a reconciliation that can fire, in order, on the columns |
| CashAnswers.ResolveCollectionAnswers | apps/api/src/cash/admin-cash.service.ts:1169-1281 | The guards of the resolution of a collection that can fire, in order, on the columns |
| CashAnswers.ResolveRemittanceAnswers | apps/api/src/cash/admin-cash.service.ts:1406-1470 | The guards of the resolution of a remittance that can fire, in order, on the columns |
| OutboxProof.NextInv | apps/worker/src/outbox-processor.ts:143-958 | Every step of every worker, late ones included, keeps the outbox invariant |
| OutboxTheorems.AttemptsFenced | apps/worker/src/outbox-processor.ts:577-753 | Attempts of a notification are numbered 1 to n and only the last can be PROCESSING |
| OutboxTheorems.SupersededHarmless | apps/worker/src/outbox-processor.ts:783-958 | A superseded worker never changes a notification status, whatever it reports |
| OutboxTheorems.IssuedFindable | apps/worker/src/outbox-processor.ts:960-990 | Every issued work record finds its event, notification and attempt again |
| OutboxTheorems.StatusesAgree | apps/worker/src/outbox-processor.ts:783-899 | DELIVERED implies the event PROCESSED, PROCESSED implies DELIVERED or CANCELLED, a dead-lettered notification implies a dead-lettered event |
| OutboxDeadLetters.SweepOutrunsDelivery | apps/worker/src/outbox-repository.ts:58-70 | The converse fails: for every configuration a reachable state with a dead-lettered event under a delivery still in progress |
| OutboxDeadLetters.DeadLetteredTogether | apps/worker/src/outbox-processor.ts:859-958 | When an event is dead-lettered, its notification is dead-lettered with it exactly if the step is a failing delivery; otherwise the notification is untouched |
| OutboxDeadLetters.NeverDeadLetteredLater | apps/worker/src/outbox-processor.ts:859-958 | A notification that was not dead-lettered with its event never is, in any run |
| OutboxTheorems.OneDispatchEach | apps/worker/src/outbox-sources.ts:40-64 | A notification past its queue has exactly one dispatch event |
| OutboxTheorems.RunAdvances | apps/worker/src/outbox-processor.ts:783-958 | Over any run PROCESSED is absorbing, DEAD_LETTER and CANCELLED events go only to PROCESSED, closed notifications keep their status, attempts are only added |
| OutboxTheorems.NoRevival | apps/worker/src/outbox-repository.ts:124-189 | Claiming, publishing and rescheduling leave a finished event as it is |
| OutboxTheorems.OnlyCompletionRevives | apps/worker/src/outbox-processor.ts:244-280 | A dead-lettered event becomes PROCESSED only through a completing worker of that event |
| OutboxTheorems.MediaDeleted | apps/worker/src/outbox-processor.ts:143-280 | A media event is PROCESSED only after every key of its payload has been deleted |
| OutboxTheorems.NeverStuck | apps/worker/src/outbox-repository.ts:75-110 | Every unfinished event has a time from which a poll leases or dead-letters it, unless a full batch of due events is ahead |
| OutboxTheorems.ClaimsInOrder | apps/worker/src/outbox-repository.ts:92-94 | A poll never passes over a due event in favour of a later one |
| OutboxTheorems.BatchBounded | apps/worker/src/outbox-repository.ts:92-94 | A poll leases at most one batch |
| OutboxTheorems.ClaimCounts | apps/worker/src/outbox-repository.ts:98-110 | Each claim raises the attempt count by one, nothing else changes it, and it never passes the maximum |
| OutboxTheorems.ClaimsBounded | apps/worker/src/outbox-repository.ts:55-122 | Claiming terminates: over any run an event is claimed at most its maximum number of times |
| OutboxTheorems.ClaimsApart | apps/worker/src/outbox-repository.ts:55-189 | In any run two claims of one event are at least a full lease apart, unless it was rescheduled in between |
| OutboxTheorems.DeadLetterExhausted | apps/worker/src/outbox-repository.ts:137-170 | A dead-lettered event has used up its attempts |
| OutboxTheorems.ClosedBranchesDead | apps/worker/src/outbox-processor.ts:577-753 | A delivery claim never meets a closed notification |
| OutboxTypes.RetryDelayBounds | apps/worker/src/outbox-contracts.ts:111-118 | The retry delay starts at the base, never shrinks and stops at the maximum |
| OutboxWorker.Worker.ClaimAvailable | apps/worker/src/outbox-repository.ts:55-122 | Dead-letters the exhausted rows, leases exactly the first due ones and returns them by availability, then id |
| OutboxWorker.Worker.MarkPublished | apps/worker/src/outbox-repository.ts:124-135 | Publishes only an event still leased by this worker, and says so |
| OutboxWorker.Worker.ScheduleRetry | apps/worker/src/outbox-repository.ts:137-189 | Reschedules, dead-letters or leaves the event, and reports which |
| OutboxWorker.Worker.PollOnce | apps/worker/src/outbox-publisher.ts:21-70 | A poll among other workers is a claim followed by one turn for each claimed event in order, with whatever others do before each turn and between its queue job and its mark; a failed mark reschedules |
| OutboxWorker.Worker.PollAlone | apps/worker/src/outbox-publisher.ts:21-70 | After an undisturbed poll every claimed event is published with its job queued, rescheduled or dead-lettered, and the polling flag is free |
| OutboxWorker.Worker.ClaimMediaDeletion | apps/worker/src/outbox-processor.ts:189-242 | The claimed event and the work record are those specified |
| OutboxWorker.Worker.ProcessMediaDeletion | apps/worker/src/outbox-processor.ts:143-187 | A finished clean-up leaves the event PROCESSED with every key deleted; a claim that throws or a deletion that fails reschedules or dead-letters it; a claim that meets a finished event changes nothing |
| OutboxWorker.Worker.ClaimNotification | apps/worker/src/outbox-processor.ts:577-753 | The claim with its attempts, its work record and its refusals is the one specified; DeliveryClaimWrites says what it is on the columns |
| OutboxWorker.Worker.FinalizeNotificationSuccess | apps/worker/src/outbox-processor.ts:783-857 | Event, notification and attempt after a reported success are those specified, late reports included; DeliveredWrites says what they are on the columns |
| OutboxWorker.Worker.FinalizeNotificationFailure | apps/worker/src/outbox-processor.ts:859-958 | Event, notification and attempt after a reported failure are those specified; FailedWrites says what they are on the columns |
| OutboxEffects.DeliveredWrites | apps/worker/src/outbox-processor.ts:783-857 | A reported delivery is recorded: by the attempt in progress on an open notification, which becomes DELIVERED with its attempt, the event PROCESSED without a lease; on a DELIVERED or CANCELLED one only the attempt; under another provider, or by a superseded attempt, nothing. Every other row is equal |
| OutboxEffects.FailedWrites | apps/worker/src/outbox-processor.ts:859-958 | A reported failure: only the attempt when the event is finished; nothing when the attempt was superseded; otherwise attempt and notification FAILED and the event waiting for its next attempt, or all three dead letters after the last. Every other row is equal |
| OutboxEffects.DeliveryClaimWrites | apps/worker/src/outbox-processor.ts:577-753 | A delivery claim fails the attempts in progress, adds the next one under a new lease and issues its work record, or cancels the notification without a provider; an unsupported channel or a finished event changes nothing |
| OutboxEffects.PollWrites | apps/worker/src/outbox-repository.ts:55-122 | A poll dead-letters the exhausted unfinished events and leases, of the claimable ones, those with fewer than a batch before them by availability and id, with one more attempt; on the columns, nothing else changes |
| OutboxEffects.PollAloneWrites | apps/worker/src/outbox-publisher.ts:21-70 | After an undisturbed poll a claimed event is published if it can be read, queued and marked, and rescheduled otherwise; every other one is as the claim left it |
| OutboxEffects.RetryWrites | apps/worker/src/outbox-repository.ts:137-189 | A rescheduled event waits until now plus the delay for its attempts, the base doubled for each further attempt up to the maximum, or is a dead letter; finished ones stay |
| OutboxEffects.PublishWrites | apps/worker/src/outbox-repository.ts:124-135 | Marking publishes only an event leased by this worker, under the longer lease; a job is queued only for a readable event |
| OutboxEffects.ReservationWrites | apps/worker/src/outbox-processor.ts:295-373 | A reservation job that does not throw finishes its event, if that is unfinished and readable |
| OutboxEffects.MediaClaimWrites | apps/worker/src/outbox-processor.ts:189-242 | A clean-up is claimed exactly for an unfinished, readable event of its own image |
| OutboxEffects.CleanUpWrites | apps/worker/src/outbox-processor.ts:143-187 | A clean-up deletes its keys in order and finishes its event when all are deleted |
| OutboxEffects.ProducersWrite | apps/worker/src/outbox-sources.ts:40-64 | One expiry event for each bucket of time, one dispatch for each queued notification, one clean-up for each image, all waiting from now with no attempt made |
| Money.BasisPointsRoundsHalfUp | apps/api/src/common/money/money.ts:21-41 | The rate of an amount is its nearest millime, halves upwards, and fails exactly outside the safe range or 0 to 100000 basis points |
| Money.BasisPointsMonotone | apps/api/src/common/money/money.ts:21-41 | A smaller amount pays no more, and can be computed whenever the larger one can |
| Allocation.AllocateInventory | apps/api/src/checkout/checkout-order.helpers.ts:58-83 | The nested loops that draw buckets down in place compute the specified allocation |
| Allocation.AllocateFailsIffShort | apps/api/src/checkout/checkout-order.helpers.ts:58-83 | The allocator gives up exactly when some variant is asked for more than its positive buckets hold together |
| Allocation.AllocateMeetsRequests | apps/api/src/checkout/checkout-order.helpers.ts:58-83 | Each variant gets exactly its request, no bucket is overdrawn, each amount is positive and from a bucket of its variant |
| Allocation.AllocateUsesBucketsOnce | apps/api/src/checkout/checkout-order.helpers.ts:58-83 | With distinct variants each bucket is used at most once |
| Allocation.AllocateOrderIndependent | apps/api/src/checkout/checkout-order.helpers.ts:58-83 | With distinct ids the result does not depend on the order of lines or buckets |
| AllocationGreed.SmallerIdsFirst | apps/api/src/checkout/checkout-order.helpers.ts:66-79 | Nothing is taken from a bucket while one of the same variant with a smaller id has any left |
| AllocationGreed.AllocatesInOrder | apps/api/src/checkout/checkout-order.helpers.ts:62-82 | With distinct ids what is taken is listed by variant, then by bucket |
| Rates.ChooseIsUniqueMaximum | apps/api/src/checkout/checkout-pricing.ts:129-149 | The choice is the unique maximum by rank and priority, AMBIGUOUS exactly on a tie at the top, MISSING exactly when nothing is eligible and something is required |
| Rates.SelectBaseRateMeaning | apps/api/src/checkout/checkout-pricing.ts:151-166 | The base rate is the listed rate strictly above every other eligible one; AMBIGUOUS and MISSING exactly otherwise |
| Rates.SelectionMeaning | apps/api/src/checkout/checkout-pricing.ts:151-182 | The same for base rates and surcharges, in terms of the rates themselves |
| Rates.SelectOrderIndependent | apps/api/src/checkout/checkout-pricing.ts:129-182 | No selection depends on the order in which rates are returned |
| Rates.FilterChangesNothing | apps/api/src/checkout/checkout-quote.service.ts:338-368 | The database filter keeps exactly the rates of positive rank, and filtering first changes no selection |
| CheckoutProof.LineMeaning | apps/api/src/checkout/checkout-pricing.ts:19-42 | The parts of a line add up, none is negative, tax is the nearest millime, and the unit discount and unit tax of the order row can then always be computed |
| CheckoutProof.QuoteTotals | apps/api/src/checkout/checkout-quote.service.ts:114-199 | The grand total is the sum of the line totals and the delivery fee, one line per item in order, within the cash limit |
| CheckoutProof.LimitIsLowest | apps/api/src/checkout/checkout-quote.service.ts:416-424 | The cash limit is the lowest of the zone limit and the limits of the chosen rates, and there is one exactly if one of them is set |
| CheckoutProof.ZoneIsUniqueHighest | apps/api/src/checkout/checkout-quote.service.ts:315-336 | The chosen zone is the only open zone of highest priority, whatever the order of the links |
| CheckoutProof.AllocatorAgreesWithQuote | apps/api/src/checkout/checkout-order.service.ts:387-424 | The greedy allocation succeeds exactly when the quote sees enough of every line |
| CheckoutProof.ReservedCheckedIff | apps/api/src/checkout/checkout-order.service.ts:389-404 | The checked sum of reservations fails exactly on a non-positive, unsafe or overflowing quantity, and is otherwise the plain sum of the quote |
| CheckoutProof.OrderRefinesQuote | apps/api/src/checkout/checkout-order.service.ts:343-444 | When the rates chosen at the two readings of the clock are the same, or for a pickup, an order succeeds exactly when the quote on the same snapshot does and the age policy, the reservations and the fees are sound; and whenever one of these succeeds, the order is the quote, line for line and total for total, exactly in that case |
| CheckoutProof.OrderAllocations | apps/api/src/checkout/checkout-order.service.ts:418-424 | An order takes for each variant what was asked, no bucket more than it holds, each bucket once |
| CheckoutProof.OrderNonNegative | apps/api/src/checkout/checkout-order.service.ts:1194-1204 | The delivery fee and the grand total of an order are never negative |
| CheckoutService.QuoteItems | apps/api/src/checkout/checkout-quote.service.ts:114-178 | The loop over running totals computes the specified lines and totals, with the first error in line order |
| CheckoutService.OrderItems | apps/api/src/checkout/checkout-order.service.ts:343-385 | The same for the order path |
| CheckoutService.SelectSurcharges | apps/api/src/checkout/checkout-quote.service.ts:398-401 | The surcharges chosen kind by kind, stopping at the first error |
| CourierMeaning.QuoteCourierMeaning | apps/api/src/checkout/checkout-quote.service.ts:263-457 | A quoted delivery goes through the one highest open zone, at the best base rate and the best surcharge of every kind among all rates valid at the time, for their sum or for nothing from the threshold on, up to the lowest limit |
| CourierMeaning.OrderCourierMeaning | apps/api/src/checkout/checkout-order.service.ts:1050-1261 | An ordered delivery is on such terms at its own time, with no negative fee and no negative total |
| CourierAgreement.CourierAgrees | apps/api/src/checkout/checkout-order.service.ts:1104-1215 | The two copies of the courier delivery: with the same base rate and surcharges chosen at both readings of the clock the order delivers exactly when the quote does and no chosen fee is negative; and whenever one of them delivers without a negative fee, their answers are equal exactly in that case |
| CourierAgreement.RateChangeMisleads | apps/api/src/checkout/checkout-quote.service.ts:269-370 | A rate that changes between the two readings: the quote delivers for 8000 and the order for 7000 |
| DeliveryFacts.QuoteCharges | apps/api/src/checkout/checkout-quote.service.ts:263-457 | A quoted delivery on the columns: the zone of the one link that serves the locality at the highest priority; a base rate and surcharges whose rows are in force, apply to the address and admit the discounted amount and the total weight, each strictly closer or of higher priority than every other such row, the express surcharge only and always for an express delivery; their fees, or nothing from the free threshold on; and the lowest limit |
| DeliveryFacts.OrderCharges | apps/api/src/checkout/checkout-pricing.ts:129-182 | The same for an ordered delivery, at the time of the order and without a negative fee |
| DeliveryFacts.PickupCharges | apps/api/src/checkout/checkout-quote.service.ts:220-262 | A pickup is free, at an active place whose minimum is met, up to the limit of that place |
| QuoteFacts.QuoteStates | apps/api/src/checkout/checkout-quote.service.ts:47-219 | What a quote states: checkout is open, the request is for one place and each variant once, each line is a variant on sale at its promotion or price with its tax and within its free stock, the weight and money totals are those of the lines, the delivery is as above, and the total due is within the cash limit |
| QuoteFacts.OrderStates | apps/api/src/checkout/checkout-order.service.ts:343-444 | The same for an order, whose products its age policy allows, at its own time |
| OrderStock.OrderTakes | apps/api/src/checkout/checkout-order.service.ts:387-424 | An order takes for each item what it asks for, in positive amounts from rows of its variant that may be sold |
| OrderStock.OrderTakesInOrder | apps/api/src/checkout/checkout-order.service.ts:387-424 | It takes no more of a row than is free of it, and nothing while a row of the variant with a smaller id has any left |
| QuoteRefusals.QuoteCourierTells | apps/api/src/checkout/checkout-quote.service.ts:263-457 | Each refusal of a quoted delivery holds on the columns: no such locality, no serving link or two at the top, the minimum of the zone, no chargeable base or express row, two rows level at the top, or fees that cannot be added up |
| QuoteRefusals.OrderCourierTells | apps/api/src/checkout/checkout-order.service.ts:1050-1261 | The same for an ordered delivery, or a negative fee among the right rates |
| OrderRefusals.QuoteTells | apps/api/src/checkout/checkout-quote.service.ts:47-219 | With distinct variant ids a quote is refused only for a reason that holds: of the request, of an item and its prices, stock or measures, of the delivery, or of the total |
| OrderRefusals.OrderTells | apps/api/src/checkout/checkout-order.service.ts:343-444 | The same for an order: an age limit in place of the stock of each item, then unsound or short stock of the whole |
| CheckoutService.Quote | apps/api/src/checkout/checkout-quote.service.ts:47-219 | The service method computes the specified quote or the first error it meets; QuoteStates says what that quote states and QuoteTells what each error means, on the columns |
| CheckoutService.PriceOrder | apps/api/src/checkout/checkout-order.service.ts:343-444 | The same for the pricing and stock part of the order, with OrderStates, OrderTakes and OrderTells |
| StoreTheorems.NoOverselling | apps/api/src/checkout/checkout-order.service.ts:387-424 | At and after the current time unexpired active reservations never exceed the stock on hand, over any interleaving of checkouts and sweeps, late transactions included |
| StoreTheorems.BreachIsDead | apps/api/src/checkout/checkout-order.service.ts:405-410 | A checkout that started after every existing order never meets INVENTORY_INVARIANT_BREACH |
| StoreTheorems.BreachAnswersExactly | apps/api/src/checkout/checkout-order.service.ts:387-417 | A checkout is refused with INVENTORY_INVARIANT_BREACH exactly when it reaches the stock check and an eligible row it fetched was over-reserved at the time it started |
| StoreStaleStart.StaleStartBreaches | apps/api/src/checkout/checkout-order.service.ts:191-200 | A reachable state, nothing oversold, in which a checkout that started a moment earlier is refused with INVENTORY_INVARIANT_BREACH |
| StoreTheorems.ReleasedOnce | apps/worker/src/outbox-processor.ts:437-489 | Over any run a reservation expires at most once, with one reserving movement and exactly one releasing movement once expired |
| StoreTheorems.SweepExpiresBatch | apps/worker/src/outbox-processor.ts:375-490 | A sweep expires exactly the first due reservations of a batch and nothing else; its quantity guard never fires |
| StoreTheorems.BatchMembers | apps/worker/src/outbox-processor.ts:385-392 | The batch holds distinct due rows, all of them if it is not full, and none that comes after a due row left out |
| StoreTheorems.FingerprintExactly | apps/api/src/checkout/checkout-order.helpers.ts:31-53 | Two requests have one fingerprint exactly when they ask for the same items in any order and agree on the rest, an absent express meaning no |
| StoreTheorems.OneOrderPerKey | apps/api/src/checkout/checkout-order.service.ts:861-905 | One order for each claim and one claim for each scoped key; the in-progress and active-key conflicts never happen |
| StoreTheorems.ReplaysForever | apps/api/src/checkout/checkout-order.service.ts:201-210 | After an order is created, the same fingerprint under its key replays it for ever and another one conflicts; neither changes anything |
| StoreTheorems.OrderIsItsCart | apps/api/src/checkout/checkout-order.service.ts:733-809 | The lines of an order are the rows of its cart, which is converted for good and belongs to no other order |
| StoreTheorems.CreatedAsQuoted | apps/api/src/checkout/checkout-order.service.ts:455-594 | A created order is what the quote gives on the same tables, and its reservations hold of each variant exactly what was asked |
| StoreTheorems.RunExtends | apps/api/src/checkout/checkout-order.service.ts:455-749 | Orders, claims and movements are only added to, reservations only expire, converted carts are frozen |
| StoreService.CheckoutTables.ClaimIdempotency | apps/api/src/checkout/checkout-order.service.ts:861-905 | Inserts the claim unless its key is there, and refuses another request or an unfinished one |
| StoreProof.LockCartExactly | apps/api/src/checkout/checkout-order.service.ts:751-809 | An order locks the freshest active cart of its customer, exactly if it has not expired and holds the items asked for in any order; each refusal says which of these fails |
| StoreService.CheckoutTables.ReserveStock | apps/api/src/checkout/checkout-order.service.ts:552-594 | One reservation and one movement for each allocation |
| StoreService.CheckoutTables.CreateInTransaction | apps/api/src/checkout/checkout-order.service.ts:191-749 | The whole order transaction, rolled back on any refusal |
| StoreService.CheckoutTables.Create | apps/api/src/checkout/checkout-order.service.ts:143-189 | At most three attempts, each on the tables others have left and with its own start; a write conflict rolls back and only the last one is reported |
| StoreService.CheckoutTables.ExpireReservations | apps/worker/src/outbox-processor.ts:375-490 | The sweep row by row, with its abort and its count, is the one specified; SweepWrites and ReleasedInTime say what it is on the columns |
| StoreEffects.SweepWrites | apps/worker/src/outbox-processor.ts:375-490 | A sweep changes only active reservations whose expiry is at or before the cutoff, at most a batch, each to EXPIRED with one releasing movement; short of a batch it leaves no such reservation; a cutoff more than five seconds ahead changes nothing |
| StoreEffects.SweepInOrder | apps/worker/src/outbox-processor.ts:385-407 | What a sweep leaves overdue comes after all that it released, by stock row and then by id |
| StoreEffects.ReleasedInTime | apps/worker/src/outbox-processor.ts:385-392 | In every reachable state an EXPIRED reservation has an expiry at most five seconds after the clock |
| StoreEffects.ViewShows | apps/api/src/checkout/checkout-order.service.ts:387-404 | An order sees the catalogue, and of each variant every stock row with what is reserved of it |
| StoreEffects.CheckoutWrites | apps/api/src/checkout/checkout-order.service.ts:455-749 | A created order on the columns: it stores the quote of its request, express only if asked for, converts the latest unexpired active cart with these items, settles its claim, and reserves each allocation for half an hour with one movement; nothing else changes |
| StoreEffects.CheckoutTells | apps/api/src/checkout/checkout-order.service.ts:191-454 | Each answer of a checkout holds on the tables, and any other answer than a new order changes nothing |
| StoreEffects.CheckoutSucceeds | apps/api/src/checkout/checkout-order.service.ts:191-749 | An order is created exactly under a new key, when the checks outside the tables pass, the latest active cart is unexpired and holds these items, and the request can be priced |
| PriceFilter.FilterMeansDisplayedPrice | apps/api/src/catalog/catalog-policy.ts:335-352 | For a priced product whose displayed price no shown but unsellable variant undercuts, the filter selects it exactly when that price is in the range, except that a positive minimum hides every product without a base price |
| PriceFilter.AgreeExactly | apps/api/src/catalog/catalog-policy.ts:335-352 | Filter and display agree on every range exactly for the products with a base price and something to sell whose displayed price no shown but unsellable variant undercuts |
| PriceFilter.UnsellableVariantMisleads | apps/api/src/catalog/catalog-policy.ts:287-317 | A published variant with a zero promotion makes filter and display disagree |
| PriceFilter.WhereMeans | apps/api/src/catalog/catalog-policy.ts:319-352 | Under three-valued logic the predicate means: no candidate below a positive minimum and a base price, some candidate up to the maximum |
| PriceFilter.EffectivePriceMeans | apps/api/src/catalog/catalog-policy.ts:258-285 | With a list price the predicate is two-valued and compares the effective price; without one it is unknown, never false |
| PriceFilter.DisplayIsLowest | apps/api/src/catalog/catalog.service.ts:147-182 | The displayed price is a candidate and the lowest of them |
| PriceFilter.DisplayIsLowestOffer | apps/api/src/catalog/catalog.service.ts:147-182 | The displayed price, on the fields of product and variants: the lowest amount due for the product itself or a published, unarchived, undeleted variant, a promotion counting if positive and at most the list price; of equal ones the lowest list price; without any, zero |
| PriceFilter.SellableVariantIsPriced | apps/api/src/catalog/catalog-policy.ts:102-104 | The sellable variant that the public listing asks for is a price to display |
| PriceFilter.BuildEffectiveProductPriceWhere | apps/api/src/catalog/catalog-policy.ts:335-352 | The clauses pushed one by one are the specified predicate |
| PriceFilter.ComputeDisplayPrice | apps/api/src/catalog/catalog.service.ts:147-182 | The candidates collected in a loop and sorted give the specified price |
| PublicationProof.NextInv | apps/api/src/catalog/admin-variants.service.ts:106-381 | Every step of any number of interleaved admin requests keeps the publication invariant |
| PublicationProof.PublishedVariantsSellable | apps/api/src/catalog/admin-variants.service.ts:191-251 | Every published variant is unarchived, with a positive price and a positive promotion, if any, not above it |
| PublicationProof.PublishedProductsSell | apps/api/src/catalog/admin-products.service.ts:388-432 | Every published product has a sellable variant and positive prices |
| PublicationProof.RetentionExactly | apps/api/src/catalog/admin-variants.service.ts:544-561 | Taking a published variant of a published product out of sale, by archiving it or by another status, is refused exactly when it is the last sellable one |
| PublicationProof.NoLostUpdate | apps/api/src/catalog/admin-variants.service.ts:248-252 | Of the requests that read one version of a row at most one is ever written, the others are refused for ever |
| PublicationProof.ReadyExactly | apps/api/src/catalog/admin-products.service.ts:711-824 | A product can be published exactly when the listed conditions on variants, SKUs, prices, stock, images, review and delivery hold; the pricing and stock flags never block on their own |
| PublicationProof.PublishedProductsFiltered | apps/api/src/catalog/catalog-policy.ts:335-352 | For published products of reachable catalogues the price filter means the displayed price |
| PublicationService.AdminCatalog.PublicationBlockers | apps/api/src/catalog/admin-products.service.ts:770-823 | Pushes the blockers one by one; there is none exactly when the product is ready |
| PublicationService.AdminCatalog.VariantPublicationBlockers | apps/api/src/catalog/admin-variants.service.ts:497-515 | The same for a draft variant: no blocker exactly when it has its own SKU, positive prices, stock, an approved and no unresolved image, no awaited review and a delivery method |
| PublicationService.AdminCatalog.VariantRowBlockers | apps/api/src/catalog/admin-products.service.ts:797-817 | The loop with its set of SKUs yields the blockers of each public variant in order |
| PublicationService.AdminCatalog.CountRemaining | apps/api/src/catalog/admin-variants.service.ts:551-560 | The count is positive exactly when another sellable variant of the product remains |
| PublicationService.AdminCatalog.OpenVariant | apps/api/src/catalog/admin-variants.service.ts:166-205 | Reads and checks a variant update; a refused one leaves no trace |
| PublicationService.AdminCatalog.UpdateVariantRow | apps/api/src/catalog/admin-variants.service.ts:206-252 | The same for a variant; UpdateVariantWrites and UpdateVariantTells say what these are on the columns |
| PublicationService.AdminCatalog.ChangeVariantArchive | apps/api/src/catalog/admin-variants.service.ts:308-352 | The transaction that archives or restores a variant |
| PublicationService.AdminCatalog.UpdateProductRow | apps/api/src/catalog/admin-products.service.ts:402-432 | The transaction with its locked checks and its version check gives the specified table or refusal; UpdateProductWrites and UpdateProductTells say what these are on the columns |
| PublicationService.AdminCatalog.ChangeProductArchive | apps/api/src/catalog/admin-products.service.ts:602-637 | The transaction that archives or restores a product |
| PublicationService.AdminCatalog.Write | apps/api/src/catalog/admin-variants.service.ts:216-252 | Writing any opened request keeps the invariant |
| PublicationEffects.UpdateProductWrites | apps/api/src/catalog/admin-products.service.ts:402-432 | An accepted product update: each field given has its value and each other field the one of the row, publishing clears the three review flags, a confirmation the media flag, the version is raised; every other row is equal |
| PublicationEffects.UpdateProductTells | apps/api/src/catalog/admin-products.service.ts:402-432 | It is refused exactly if the version has passed, or if it publishes against a missing reference or a blocker |
| PublicationEffects.OpenProductTells | apps/api/src/catalog/admin-products.service.ts:345-400 | A product update is opened on the row as it is exactly if the checks hold, and each refusal says which one does not |
| PublicationEffects.ProductBlockersTell | apps/api/src/catalog/admin-products.service.ts:770-823 | Each blocker stands in the list for a product exactly when its condition on flags, prices, stock, SKUs, images, variants and delivery holds |
| PublicationEffects.ArchiveProductWrites | apps/api/src/catalog/admin-products.service.ts:602-637 | Archiving and restoring a product write its status and version alone |
| PublicationEffects.UpdateVariantWrites | apps/api/src/catalog/admin-variants.service.ts:206-252 | An accepted variant update: each field given has its value, SKU and price included, and each other field the one of the row; the version is raised; every other row is equal |
| PublicationEffects.UpdateVariantTells | apps/api/src/catalog/admin-variants.service.ts:206-252 | It is refused exactly if the version has passed, if it publishes against a blocker, or if it takes the last variant of a published product out of sale |
| PublicationEffects.OpenVariantTells | apps/api/src/catalog/admin-variants.service.ts:166-205 | A variant update is opened on the row as it is exactly if the checks hold, and each refusal says which one does not |
| PublicationEffects.VariantBlockersTell | apps/api/src/catalog/admin-variants.service.ts:497-515 | Each blocker stands in the list for a draft variant exactly when its condition holds |
| PublicationEffects.ArchiveVariantWrites | apps/api/src/catalog/admin-variants.service.ts:308-352 | Archiving and restoring a variant leave it an archived or unarchived draft and write nothing else; refused exactly for a passed version or the last sellable variant |
| PublicationEffects.CreationWrites | apps/api/src/catalog/admin-variants.service.ts:106-150 | New products and variants are drafts of the first version with the fields given, refused exactly for an invalid promotion or a missing or archived product |
| Csv.ParseCsvRecords | apps/api/src/catalog-import/catalog-import-parser.ts:28-82 | The index loop computes the specified parse, its errors included |
| Csv.RoundTrip | apps/api/src/catalog-import/catalog-import-parser.ts:28-82 | Printing all cells quoted with CR LF and parsing gives the table back exactly when it has at most 2001 records, none empty, no cell over 2048 units and no last cell over 2047 |
| Csv.RecordsExactly | apps/api/src/catalog-import/catalog-import-parser.ts:59-81 | A parsed text has one record for each line end outside quotes, at most 2001, and one more for a remainder other than a pair of quotes; it is the 2002nd exactly when 2001 line ends came before |
| Csv.OneRecordTooMany | apps/api/src/catalog-import/catalog-import-parser.ts:59-81 | A text that parses to 2002 records |
| Csv.ParsedWithinLimits | apps/api/src/catalog-import/catalog-import-parser.ts:46-80 | Any parsed table has no empty record, no cell over the limit and at most 2002 records |
| Csv.Canonical | apps/api/src/catalog-import/catalog-import-parser.ts:28-82 | A parsed table printed in the strict form parses to itself when its rows and last cells leave room |
| CsvGrammar.ParsesExactly | apps/api/src/catalog-import/catalog-import-parser.ts:28-82 | A text parses to these records exactly if it is a table of cells, each a quoted part, a plain part without quote, comma or line feed, or one after the other, with at most 2001 line feeds and no cell over 2048 units, and these are the contents of its cells, less one CR at the end of each line |
| CsvGrammar.RefusesExactly | apps/api/src/catalog-import/catalog-import-parser.ts:46-76 | A table of such cells is never refused as malformed, and for its size exactly when a cell is too long or there are too many line feeds |
| Onboarding.HolderUpToDate | apps/api/src/auth/google-oauth-state.service.ts:185-221 | Whoever holds the lock has an up-to-date copy or the record has expired, and only one claim holds it |
| Onboarding.AttemptsExact | apps/api/src/auth/google-oauth-state.service.ts:251-276 | Stored attempts count the recorded failures exactly, at most five are recorded, at most one finish succeeds |
| Onboarding.ScriptsExact | apps/api/src/auth/google-oauth-state.service.ts:14-39 | A script succeeds exactly when its client still holds the lock and the record is there; otherwise a superseded client changes nothing |
| Onboarding.FinishIsFinal | apps/api/src/auth/google-oauth-state.service.ts:223-240 | After a finish nothing is recorded or finished on the token again |
| Onboarding.ClosedForEver | apps/api/src/auth/google-oauth-state.service.ts:29-39 | A token whose record was deleted or has expired never gains a failure or a finish |
| Onboarding.GoogleOAuthState.ClaimOnboarding | apps/api/src/auth/google-oauth-state.service.ts:185-221 | Lock, read, and give the lock back when the record is missing or out of time |
| Onboarding.GoogleOAuthState.FinishOnboarding | apps/api/src/auth/google-oauth-state.service.ts:223-240 | The finish script and its error |
| Onboarding.GoogleOAuthState.RecordFailedLink | apps/api/src/auth/google-oauth-state.service.ts:251-276 | The failure script: write back one more attempt, or delete at the fifth |
| OnboardingEffects.CreationWrites | apps/api/src/auth/google-oauth-state.service.ts:154-165 | A new token has a record without attempts, with the time it is given, and replaces nothing |
| OnboardingEffects.LockWrites | apps/api/src/auth/google-oauth-state.service.ts:185-194 | A lock that is free goes to one client for thirty seconds under a value nobody else has |
| OnboardingEffects.ReadWrites | apps/api/src/auth/google-oauth-state.service.ts:195-221 | A client reads what is stored, or gives up its own lock alone when nothing is |
| OnboardingEffects.FinishWrites | apps/api/src/auth/google-oauth-state.service.ts:14-21 | A finish by the client in charge deletes record and lock and is counted once; by any other it changes nothing |
| OnboardingEffects.FailureWrites | apps/api/src/auth/google-oauth-state.service.ts:23-39 | A failed link by the client in charge adds one attempt to the stored record, which keeps its profile and its time, or deletes it with the fifth; the lock is free either way |
| OnboardingEffects.RecordKept | apps/api/src/auth/google-oauth-state.service.ts:33-39 | Over any run the record of a token keeps its profile and its time for as long as it is there, and once deleted never comes back |

## Left out

- StoreTheorems.BreachIsDead: speaks of transactions in start order; BreachAnswersExactly covers the others.
- OutboxWorker.Worker.PollAlone: nothing else runs during that poll; PollOnce is the poll among others.
- StoreService.CheckoutTables.Create: the delay before a retry is not modelled.
- CashService.AdminCashService.OrderProjection: the query for the collections of an order asks for no order; the model takes them by id.
- Money.Add: an exact sum or a failure; the rounding of intermediate sums of mixed sign beyond 2^53 is not modelled.
- Order confirmation and cancellation, and inventory adjustments: stock on hand is fixed, and a reservation ends only by expiry.
- Order numbers, addresses, postal codes, consents, customers and block lists: they can only refuse an order, which `admits` and `completes` stand for.
- The `express` column of a delivery rate, which the source reads but never uses to select one.
- Hashes are injective, random tokens never repeat, and all workers share one clock that only advances.
- The pattern of idempotency keys, audit rows, reconciliation events, exports, serialization and error texts.
- An empty allocation list is refused as the query that would lock no rows fails.
- INVESTIGATING discrepancies: no code sets that status, so only its transitions are in the tables.
- The inventory, category, restriction and image conditions of the public listing: `sellable` and `eligible` stand for them in the checkout.
- Media review confirmation, catalogue imports and their rollback, and the deletion of rows.
- Sources of media events, message preparation, providers and object storage: a delivery or a deletion succeeds or fails as the environment decides.
- UTF-8 decoding and the readers of typed import fields.
- The OAuth authorization state, cookies and encryption of onboarding records.
- publicPriceRange: its SQL admits a price of zero where the filter does not, so it is another function.
- Cart policies, checkout policy evaluation, pagination and the delivery state machine: they hold no state that the results here depend on beyond the guards that stand for them.
