# Verification of the wallet platform

This project models the parts of the platform where money and sessions can go wrong, and proves
what they promise. `dafny verify dfyconfig.toml` checks all of it.

The system in its own terms:

- **The ledger.** Wallets hold balances in minor units. Deposits settle at once; withdrawals wait for
  a reviewer; adjustments are immediate corrections; transfers move money between two wallets, with
  conversion if their currencies differ. Each call is one database transaction that locks rows in a
  fixed order, re-reads them, writes balances and ledger rows, and writes its audit row and its
  outbox event with them. `Ledger` says what each call writes, `WalletsServices` is the service
  statement by statement, `LedgerSteps` runs any number of calls at once, one statement at a time,
  with locks, private writes and lost connections. `LedgerSerial` proves that every interleaving is
  serial and that no deadlock can occur; `LedgerLaws` and `LedgerHistory` prove what serial
  histories keep, so it holds of every concurrent run. `LedgerOutcomes` says when each
  call is refused and what a transfer credits, in terms of the tables and the request alone;
  `LedgerOrigins` proves where every row of a run comes from, `LedgerNews` and `LedgerReports` what
  the events tell users and the audit entries auditors.
- **Idempotent requests.** A key claims a request before its handler runs, so that retries replay its
  answer. `Idempotency` is the protocol with requests, expiry, failed writes and stopped processes
  interleaving; `IdempotentLedger` runs that protocol around the concurrent ledger and proves the
  two together; `IdempotencyOnce` says when a key that has run can run again; `IdempotencyServices` is
  the store and the interceptor as they run.
- **Event delivery.** Outbox, broker, consumer with done marks, three retry queues and a dead queue.
  `Delivery` is the machine, in which processes stop, connections break and handlers outlive their
  delivery; `DeliveryLoss` says when an event can be lost, `DeliveryOnce` when it can be sent twice,
  `DeliveryLadder` proves that the retries end and bounds the sends; `DeliveryServices` and `Queue` are
  the services.
- **Sessions.** `Tokens` is refresh-token rotation with each call as one step, `TokenRaces` the same
  calls taken apart into their statements, `TokenSuspension` what suspending a user does to them.
- **Smaller cores.** `Rates` and `RatesOrder` (conversion), `Fields` and `Amounts` (number fields and cents),
  `TableParams` (table state in the URL), `Cache` (cache-aside), `Alerts` and `AlertRaces` (one-shot
  price alerts, whole and overlapping checks).

`Doubles` is whole-number arithmetic in JavaScript's numbers; `Wrappers`, `Sums`, `Numbers` and
`Rounding` are shared helpers.

## Reading the model

- Ids are natural numbers. The ledger compares them only for equality and sorts two of them to order
  its locks. Ids drawn at random are fresh, and no caller can name one before its transaction has
  committed; hashes are injective. A request's fingerprint is therefore the request itself, a
  refresh token is its own key.
- Balances and amounts are 32-bit integer columns: a write that does not fit is refused
  (`OutOfRange`) and rolls its transaction back. Exchange rates are not negative.
- The ledger's `settled` sequence and the fields named as history in the machines are not columns.
  They record what has happened so that it can be talked about, and no branch depends on them.
- A transaction's isolation is what the code uses of it: `FOR UPDATE` waits for the lock's holder,
  a plain read sees the last committed row, own writes are invisible until the commit.
- `publish` answering false means nothing. That answering true means that the broker holds the message
  is a hypothesis where it is needed (`DeliveryLoss.Honest`): the code does not obtain it, because the
  channel is no confirm channel and true only says that its write buffer is not full.
- A handler that has lost its delivery keeps its old delivery tag, which may mean any message then
  delivered on the channel that is open, or none. A second settlement of one delivery, on which the
  broker closes the channel, is covered by connections that break at any time.
- A ledger call whose handler ends in an error has not committed, except where the model says so: the
  commit's reply may be lost, or the handler may throw after it (`UnheardOf` in `IdempotentLedger`).
- Redis may fail, and may forget a mark or a cached value, at any time.

## Where the code and its documentation differ

- The schema calls ledger amounts always positive (`backend/prisma/schema.prisma:84`). The credit of a
  cross-currency transfer may be zero, and not only when it is worth no more than half a minor unit:
  `Rates.CreditIsPositiveIff` gives the exact condition for every product, `Rates.LostCreditExample`
  a credit worth more than half a unit.
- An adjustment row does not store its direction, although the schema says that the type carries it;
  only its two balances tell a credit from a debit.
- `convertMinor` promises banker's rounding of the exact product. Decimal first cuts the product to 20
  digits, half up, so a tie can be made that was none: `Rates.TippedExample` is one, and
  `Rates.ConvertIsNearestIffNotTipped` says exactly when this happens.
- The comment at `backend/src/idempotency/idempotency.service.ts:18-20` says that a duplicate can
  never run the handler a second time. It can: `Idempotency.UnstoredAnswerRunsAgain` is a run in
  which the write that records the answer fails after the handler has committed, and
  `IdempotencyOnce.RunsAgainIff` says exactly when a key that has run can run again within its day.
  `IdempotentLedger.CommitsAreBounded` bounds the commits by the rows lost this way or by expiry and
  by the commits whose handler ended in an error.
- The comment at `backend/src/outbox/outbox.service.ts:20-27` calls the relay a guarantee. It is one
  only if the consumer's process exits with its connection and the broker holds what it answered for:
  `DeliveryLoss.NothingIsLostIff`. The worker exits (`backend/src/worker.ts:28-31`), the consumer
  inside the API, which is what is deployed (`render.yaml:24-25`), does not. A handler that outlives
  its connection acknowledges its old delivery tag on the new channel
  (`backend/src/queue/queue.service.ts:104-111`), and the broker drops the message that tag now means:
  `DeliveryLoss.StolenDelivery`. `DeliveryLoss.EventIsSafeIff` says which events are safe from it.
- The comment at `backend/src/auth/tokens.service.ts:145-151` still describes the loser of a raced
  rotation as revoking the family. The code gives it a token of its own. It also means that a
  revoked family can get a live token again from a call that had read one of its rows before:
  `TokenRaces.RevocationIsFinalIff` says exactly when.
- The comment at `backend/src/auth/auth.service.ts:133-139` promises that a suspended account obtains
  tokens by no route. A rotation or a sign-in that has read the user as active before the suspension
  still issues a live row after it (`TokenSuspension.SuspendedMidRotation`,
  `TokenSuspension.SuspendedMidSignIn`), usable once the user is active again; suspending deletes only
  the rows that are there (`backend/src/users/users.service.ts:141-145`).
  `TokenSuspension.SuspensionIsFinalIff` says exactly when a suspension is final.
- The consumer prefetches ten messages, so two copies of one event can be in two handlers at once and
  both be sent: `DeliveryOnce.TwoHandlersSendTwice`. With one handler for each event at a time this
  cannot happen (`DeliveryOnce.CalmRunsSendOnce`), and `DeliveryOnce.SentAtMostOnceIff` says exactly
  when it can no longer happen to an event.
- A search or filter that is cut to its limit right after a space is a table state that no link
  reproduces: `TableParams.ParseIsNormalIff`.
- `skip` is meant to be the rows before the page. It is while their number is at most 2^53; above, it is
  rounded, and it is Infinity when the page reads as Infinity or the product reaches
  2^1024 - 2^970, as it does for `page=1e308`: `TableParams.ParsedSkip`, `TableParams.HugePageExample`.
- Overlapping alert checks can notify a user twice: `AlertRaces.OverlapNotifiesTwice`;
  `AlertRaces.SecondCheckNotifiesIff` says exactly when an alert is done.

## Model

| member | source | states |
|---|---|---|
| LedgerSerial.InterleavingIsSerial | backend/src/wallets/wallets.service.ts:86-661 | every interleaving of any number of concurrent calls leaves the tables that the finished calls leave when run one at a time in the order they ended, each with the outcome it then has; refused and lost calls leave no trace |
| LedgerSerial.RunKeepsBalances | backend/src/wallets/wallets.service.ts:91-109 | at every moment of every concurrent run a balance is between zero and the column's limit, is the sum of the signed settled rows, and closes their unbroken chain |
| LedgerSerial.RunConservesMoney | backend/src/wallets/wallets.service.ts:537-578 | over every concurrent run the money in a currency changes by deposits, approved withdrawals, adjustments and cross-currency transfers only |
| LedgerSerial.RunSettlesRowsOnce | backend/src/wallets/wallets.service.ts:276-315 | between any two moments of a concurrent run a row leaves pending at most once, never changes afterwards, and has moved money once if approved and never otherwise |
| LedgerSerial.RunRecordsCommits | backend/src/wallets/wallets.service.ts:317-349 | the audit trail and the outbox of a concurrent run hold exactly one entry and one event for each committed call that owes them, in commit order, and nothing of any other call |
| LedgerOrigins.RunRowsHaveOrigins | backend/src/wallets/wallets.service.ts:512-615 | in every concurrent run each row that was added was asked for, as it stands, by a committed call of the wallet's owner, or of staff for an adjustment; an incoming transfer row credits the amount sent, converted to the nearest unit at the quoted rate it records if the currencies differ; each row that left pending was reviewed by a committed call whose actor held the permission for its kind; each wallet that was added was opened by its owner |
| LedgerOrigins.HistoryHasOrigins | backend/src/wallets/wallets.service.ts:266-429 | the same of serial histories, by induction |
| LedgerOutcomes.TransferCreditsNearest | backend/src/wallets/wallets.service.ts:537-546 | between two currencies a committed transfer credits the one integer nearest to amount times rate, ties to even, if and only if cutting the product to twenty digits made no tie, so for every product below 10^20; in one currency it credits the amount |
| LedgerOutcomes.TransferMoves | backend/src/wallets/wallets.service.ts:567-578 | a transfer takes its amount from the sender's balance, adds what its incoming row says to the receiver's, and changes no other wallet |
| LedgerOutcomes.TransferOutcome | backend/src/wallets/wallets.service.ts:519-565 | each refusal of a transfer is met exactly under its own condition on the two wallets, the actor, the quote and the balance |
| LedgerOutcomes.ReviewOutcome | backend/src/wallets/wallets.service.ts:691-703 | a review of an existing row is forbidden if and only if the row is a withdrawal and the reviewer lacks the permission for withdrawals, or it is not one and the reviewer lacks the one for deposits; a permitted one is refused as reviewed if and only if the row is not pending |
| LedgerOutcomes.ApprovalOutcome | backend/src/wallets/wallets.service.ts:289-300 | a permitted approval of a pending row is refused exactly for a withdrawal above the balance or a deposit beyond the column's limit |
| LedgerOutcomes.RejectionOutcome | backend/src/wallets/wallets.service.ts:373-395 | a permitted rejection of a pending row goes through for every storable amount |
| LedgerOutcomes.DepositOutcome | backend/src/wallets/wallets.service.ts:83-109 | a deposit is refused exactly for a missing wallet, a wallet of someone else, or a balance beyond 2^31 - 1 |
| LedgerOutcomes.WithdrawalOutcome | backend/src/wallets/wallets.service.ts:150-172 | a withdrawal request is refused exactly for a missing wallet, a wallet of someone else, or a balance below its amount |
| LedgerOutcomes.AdjustmentOutcome | backend/src/wallets/wallets.service.ts:436-460 | an adjustment is refused exactly for a missing wallet, a result below zero, or one beyond 2^31 - 1 |
| LedgerSerial.ScriptLocksInOrder | backend/src/wallets/wallets.service.ts:549-556 | every call takes its locks along one order: transaction row before wallet, wallets by id |
| LedgerSerial.SomeCallCanAdvance | backend/src/wallets/wallets.service.ts:278-286 | in every state with calls in flight one of them is not waiting for a lock |
| LedgerSerial.RunsCanDrain | backend/src/wallets/wallets.service.ts:549-556 | however a concurrent run has gone, it can go on until every call has ended: no deadlock |
| LedgerSerial.InputsAreCurrent | backend/src/wallets/wallets.service.ts:558-562 | what a call read, early or under its locks, is still what the tables say when it writes |
| LedgerSerial.StopIsExplained | backend/src/wallets/wallets.service.ts:519-542 | a call that is refused before its writes is refused for the reason it would have met alone at that moment |
| LedgerHistory.HistoryIsSound | backend/src/wallets/wallets.service.ts:91-109 | every history keeps the books balanced and chained and the transfer rows paired |
| LedgerHistory.MoneyIsConserved | backend/src/wallets/wallets.service.ts:537-578 | per currency, the final total is the initial one plus what the committed calls brought in |
| LedgerHistory.RowsMoveForwardOnly | backend/src/wallets/wallets.service.ts:379-395 | from any moment of a history on, rows stay or leave pending once, wallets keep owner and currency |
| LedgerHistory.ApprovedRowsSettleOnce | backend/src/wallets/wallets.service.ts:302-315 | a row is settled once if it is approved and never otherwise |
| LedgerHistory.BalanceIsSumOfRows | backend/src/wallets/wallets.service.ts:95-109 | a balance is the sum of the signed amounts of its wallet's settled rows |
| LedgerHistory.StatementIsUnbroken | backend/src/wallets/wallets.service.ts:292-315 | read forwards, the first row opens at zero, each opens where the last closed and closes its signed amount later, the last at the balance |
| LedgerHistory.HistoryIsAudited | backend/src/audit/audit.service.ts:34-48 | the audit trail is what the committed calls owe, in order |
| LedgerHistory.HistoryIsAnnounced | backend/src/realtime/notification.service.ts:23-38 | the outbox gains the announced events and no others |
| LedgerHistory.OneEventPerAnnouncement | backend/src/realtime/notification.service.ts:28-37 | no two commits share an event |
| LedgerLaws.CommitKeepsBooks | backend/src/wallets/wallets.service.ts:446-471 | each committed call keeps balances non-negative and every wallet's chain unbroken |
| LedgerLaws.CommitKeepsPairs | backend/src/wallets/wallets.service.ts:583-615 | outgoing and incoming transfer rows correspond one to one by transfer id, with the same rate and swapped counterparties |
| LedgerLaws.CommitMovesTotal | backend/src/wallets/wallets.service.ts:567-578 | one call changes a currency's total by what it brings in from outside; a transfer within it by nothing |
| LedgerLaws.CommitMovesRowsForward | backend/src/wallets/wallets.service.ts:281-283 | one call never changes a row that is no longer pending, nor a wallet's owner or currency |
| LedgerLaws.CommitIsAudited | backend/src/wallets/wallets.service.ts:475-487 | each settlement, rejection and adjustment leaves one audit entry of its actor, action and entity |
| LedgerLaws.CommitIsAnnounced | backend/src/wallets/wallets.service.ts:330-349 | deposits, approvals, rejections and transfers add one new event, other calls none |
| LedgerLaws.EventMatchesRow | backend/src/wallets/wallets.service.ts:636-641 | the event tells the owner of the row's wallet that row's amount in that wallet's currency |
| LedgerNews.RunTellsOwners | backend/src/wallets/wallets.service.ts:332-349 | in every concurrent run the events added to the outbox and the rows decided correspond one to one: each tells the owner of that row's wallet its amount, currency and outcome, under the row's or the transfer's tag, and no decided row goes untold or is told of twice |
| LedgerNews.HistoryIsTold | backend/src/realtime/notification.service.ts:23-38 | the same of serial histories, by induction: owners, currencies, amounts and decided rows never change |
| LedgerReports.RunReportsRows | backend/src/audit/audit.service.ts:25-48 | in every concurrent run each entry added to the audit trail names an actor who did just that to a row the ledger still holds, with that row's balances, and no entry is taken out or rewritten |
| LedgerLaws.AuditMatchesBalance | backend/src/wallets/wallets.service.ts:619-633 | the balance an audit entry reports is the closing balance of the wallet it is about |
| WalletsServices.WalletsService.Deposit | backend/src/wallets/wallets.service.ts:83-148 | the method leaves the tables and gives the refusal that the call's specification says |
| WalletsServices.WalletsService.RequestWithdrawal | backend/src/wallets/wallets.service.ts:150-172 | the same for a withdrawal request, with its advisory test of the balance |
| WalletsServices.WalletsService.Approve | backend/src/wallets/wallets.service.ts:266-371 | the same for an approval: missing row, permission, status, wallet and funds are tested in that order, then all four writes or none; it is forbidden if and only if the row is there and the permission for its kind is not held |
| WalletsServices.WalletsService.Reject | backend/src/wallets/wallets.service.ts:373-429 | the same for a rejection, which moves no money; it is forbidden if and only if the row is there and the permission for its kind is not held |
| WalletsServices.WalletsService.Adjust | backend/src/wallets/wallets.service.ts:436-505 | the same for an adjustment, refused if the balance would become negative |
| WalletsServices.WalletsService.Transfer | backend/src/wallets/wallets.service.ts:512-675 | the same for a transfer: all six writes or none; it debits the amount, and credits the amount or, between currencies, the integer nearest to amount times rate unless the first rounding tipped a tie |
| WalletsServices.WalletsService.MoveBetween | backend/src/wallets/wallets.service.ts:554-641 | a transfer's transaction applies all its writes if all fit their columns, and otherwise none |
| WalletsServices.WalletsService.OpenWallet | backend/src/wallets/wallets.service.ts:33-37 | a new wallet opens at zero |
| WalletsServices.WalletsService.GetOwnedWallet | backend/src/wallets/wallets.service.ts:710-716 | not found exactly if the wallet is missing, forbidden exactly if it is there and not the actor's, no refusal exactly if it is the actor's |
| IdempotentLedger.RetriesActAsOne | backend/src/idempotency/idempotency.interceptor.ts:62-91 | within a day of a key's first use, as long as answers can be stored and no handler of the key ends in an error after its commit, the ledger's tables are those of a serial history in which at most one call made under the key takes part, however retries, statements, lost calls and stopped processes interleave |
| IdempotentLedger.RetriesCommitOnce | backend/src/idempotency/idempotency.service.ts:18-40 | under the same conditions the ledger commits at most one call for the key |
| IdempotentLedger.CommitsAreBounded | backend/src/idempotency/idempotency.service.ts:21-55 | in every run the ledger commits at most one call for a key, plus one for each of its rows that was deleted under a run, plus one for each commit whose handler ended in an error, its reply lost or an exception thrown after it |
| IdempotentLedger.AnsweredMeansCommittedOnce | backend/src/idempotency/idempotency.interceptor.ts:63-66 | a request answered under a key that lost no row and had no commit whose handler ended in an error: the ledger has committed exactly one call for that key, and it agrees with what was asked in every field the client supplied, wallet, actor, amount and note among them |
| Idempotency.AskedAlikeIff | backend/src/idempotency/idempotency.interceptor.ts:57-60 | two requests have one fingerprint if and only if they are of one kind and agree on every field the client supplies |
| IdempotentLedger.CallsAreServed | backend/src/idempotency/idempotency.interceptor.ts:86-90 | the protocol never stands in the way of a ledger call in flight |
| IdempotentLedger.LedgerRuns | backend/src/idempotency/idempotency.interceptor.ts:87-88 | the ledger's part of a combined run is a run of the ledger |
| IdempotentLedger.ProtocolRuns | backend/src/idempotency/idempotency.interceptor.ts:62-91 | the protocol's part of a combined run is a run of the protocol |
| Idempotency.RunsAreBounded | backend/src/idempotency/idempotency.service.ts:21-40 | under any interleaving handlers commit for a key at most once, plus once for each lost row |
| Idempotency.KeysRunOnceInADay | backend/src/idempotency/idempotency.service.ts:32-35 | for a day after its first use a key loses no row and runs at most once, if answers can be stored |
| Idempotency.AnswersAgree | backend/src/idempotency/idempotency.service.ts:36-38 | all answers under a key that lost no row are the status and body of one run, to one and the same request |
| Idempotency.OnlyTheHolderRuns | backend/src/idempotency/idempotency.service.ts:36-37 | while a request's row is in place the key shows its fingerprint and no answer, and every other handler running under that key has lost its row: a different fingerprint never runs while the key is held |
| IdempotencyOnce.RunsAgainIff | backend/src/idempotency/idempotency.service.ts:18-20 | a key that has run is not run again by any continuation within its day whose answers are stored if and only if no handler is at work under it and no request is about to release its row |
| IdempotencyOnce.ReleasedRunsAgain | backend/src/idempotency/idempotency.interceptor.ts:87-90 | in every reachable state in which the row of a run is about to be released, the release and one more request run the handler again |
| IdempotencyOnce.ClosedRunsNothing | backend/src/idempotency/idempotency.service.ts:32-38 | otherwise no continuation within the day adds a run |
| Idempotency.UnstoredAnswerRunsAgain | backend/src/idempotency/idempotency.interceptor.ts:87-90 | a reachable run in which a failed write of the answer after the commit frees the key, and the retry runs the handler again |
| IdempotencyServices.IdempotencyService.Reserve | backend/src/idempotency/idempotency.service.ts:21-39 | insert first; an expired row is deleted and the attempt repeated; otherwise mismatch, in progress or replay |
| IdempotencyServices.IdempotencyService.Complete | backend/src/idempotency/idempotency.service.ts:41-50 | stores the answer in the row with that id alone, and fails if it is gone |
| IdempotencyServices.IdempotencyService.Release | backend/src/idempotency/idempotency.service.ts:53-55 | removes the row with that id alone |
| IdempotencyServices.IdempotencyInterceptor.Intercept | backend/src/idempotency/idempotency.interceptor.ts:40-92 | what a request is answered, whether its handler runs and what is stored, for every header, user, store and handler outcome |
| IdempotencyServices.RetryGetsTheSameAnswer | backend/src/idempotency/idempotency.interceptor.ts:64-67 | for a day an answered request is answered the same without running, and another request is refused |
| IdempotencyServices.FailureFreesTheKey | backend/src/idempotency/idempotency.service.ts:52-55 | after a failed handler the key is free and the next request runs |
| IdempotencyServices.ReservationIsDecided | backend/src/idempotency/idempotency.service.ts:31-38 | a key row counts for 24 hours; a request is new exactly when none counts, and else meets a conflict for another request, a conflict while the handler runs, or the stored answer |
| IdempotencyServices.HandlingIsDecided | backend/src/idempotency/idempotency.interceptor.ts:86-90 | the handler runs exactly when no row counts; an answer that can be stored is kept under the name, anything else frees it, and no other name is touched |
| IdempotencyServices.OtherRequestsConflict | backend/src/idempotency/idempotency.interceptor.ts:68-76 | a key claimed for one request refuses within its day every request that differs in anything the client supplied, and runs nothing |
| IdempotencyServices.ReserveIsARun | backend/src/idempotency/idempotency.service.ts:21-39 | reserve alone is a run of the protocol's steps with the same outcome |
| IdempotencyServices.HandlingIsARun | backend/src/idempotency/idempotency.interceptor.ts:86-90 | running the handler and completing or releasing is a run of the protocol with the same store |
| IdempotencyServices.InterceptIsARun | backend/src/idempotency/idempotency.interceptor.ts:62-91 | a whole request handled alone is a run of the protocol: same keys, same reply, and it commits exactly when its handler ran and did not throw |
| DeliveryLoss.NothingIsLostIff | backend/src/queue/queue.service.ts:104-111 | no reachable state of the system has lost an event if and only if the consumer's process exits with its connection and the broker holds what it answered for |
| DeliveryLoss.EventIsSafeIff | backend/src/worker/in-process-consumer.module.ts:6-10 | with the consumer inside the API, a committed event is safe from loss in every continuation if and only if it has been sent or lies in the dead queue |
| DeliveryLoss.NoEventIsLost | backend/src/outbox/outbox.service.ts:20-27 | under stops, lost connections, unanswered publishes and redelivery every committed event is pending in the outbox, held by the broker, or sent, in every run in which answered messages are held and no handler acknowledges a delivery that is not its own |
| DeliveryLoss.StolenDelivery | backend/src/queue/queue.service.ts:104-106 | an event is delivered under the tag of a handler that outlived its connection, acknowledged by it, and lost with the next stop, although its row says published |
| DeliveryLoss.ExposedCanBeLost | backend/src/worker/in-process-consumer.module.ts:30-37 | every event that is neither sent nor in the dead queue can be lost, however many copies of it there are |
| DeliveryLoss.UnheldAnswer | backend/src/queue/queue.service.ts:67-88 | an answered message that the broker does not hold loses its event |
| Delivery.LadderIsKept | backend/src/queue/queue.service.ts:179-196 | retry queue n holds only copies retried n times, n is 1 to 3, and no copy is retried more than three times |
| DeliveryLadder.LadderTerminates | backend/src/worker/notification.consumer.ts:93-111 | in every run of any steps from a reachable state, the steps that move copies and handlers on number at most the way to rest and 48 for each message that came to the main queue meanwhile; and one is possible if and only if some copy is neither acknowledged nor dead or some handler is left |
| DeliveryLadder.MovingOnApproachesRest | backend/src/worker/notification.consumer.ts:93-111 | in every run, the moves made and the way left to rest are at most the way there was and what came to the main queue added |
| DeliveryLadder.SendsAreBounded | backend/src/queue/events.ts:11-15 | in every run, an event is sent at most four times for each of its messages that came to the main queue: held publishes, redeliveries, and retries that could not be published |
| DeliveryLadder.OneCopyIsSentAtMostFourTimes | backend/src/queue/events.ts:14-15 | whatever else is done meanwhile, an event whose one message is fresh on the main queue is sent at most four more times, and four for each of its messages that comes later |
| DeliveryLadder.TheLadderIsUsedUp | backend/src/worker/notification.consumer.ts:93-111 | four is the least bound: a message can be sent as often as it has sends left, without another coming |
| DeliveryOnce.CalmRunsSendOnce | backend/src/worker/notification.consumer.ts:71-87 | with one handler at a time for each event, Redis up and no stop between sending and marking, an event is sent at most once however many copies exist and however many other events are in hand |
| DeliveryOnce.SentAtMostOnceIff | backend/src/worker/notification.consumer.ts:71-87 | with any number of handlers an event is sent at most once in every continuation if and only if it has been sent at most once, its mark is written and no handler is about to send it |
| DeliveryOnce.TwoHandlersSendTwice | backend/src/worker/notification.consumer.ts:16 | from every state two handlers at once, which the prefetch of ten allows, can send an unmarked event twice more, nothing failing |
| DeliveryServices.OutboxService.EnqueueRow | backend/src/outbox/outbox.service.ts:39-43 | the event's row starts pending and unattempted |
| DeliveryServices.OutboxService.PublishNow | backend/src/outbox/outbox.service.ts:46-64 | a pending row becomes published if and only if the broker answered; otherwise it stays as it was with one more attempt and may be taken by the relay; no other row changes |
| DeliveryServices.OutboxService.RelayPending | backend/src/outbox/outbox.service.ts:67-105 | hands the batch to the broker in order; a pending row becomes published if and only if it is in the batch, was answered for and the transaction commits; unanswered rows stay pending with one more attempt; a second run at once, a missing connection or a failed transaction changes no row |
| DeliveryServices.OutboxService.ReadPending | backend/src/outbox/outbox.service.ts:73-75 | the batch is the oldest rows that are pending and not locked by another relay, in order, fifty at most, and all of them if they are fewer |
| DeliveryServices.OutboxService.PublishBatch | backend/src/outbox/outbox.service.ts:77-81 | hands over every row in order and sorts the batch by the broker's answers |
| DeliveryServices.RelayIsARun | backend/src/outbox/outbox.service.ts:46-105 | a relay alone, or with a batch of one a publish right after the commit, is a run of the machine's publishes and marks, or of its publishes and a forgetting if the transaction fails, and leaves the same statuses |
| DeliveryServices.OutboxService.PurgePublished | backend/src/outbox/outbox.service.ts:109-116 | drops exactly the old published rows, never a pending one |
| DeliveryServices.NotificationConsumer.Handle | backend/src/worker/notification.consumer.ts:58-91 | tells the broker what the machine's handler steps tell it, settles the message exactly once, and marks only after a successful push |
| DeliveryServices.NotificationConsumer.RetryOrDead | backend/src/worker/notification.consumer.ts:93-111 | dead after three retries; else republished with the next count and acknowledged only if that was answered |
| DeliveryServices.HandlerEffects | backend/src/worker/notification.consumer.ts:23-32 | each branch of the handler ends in exactly one acknowledgement or refusal |
| DeliveryServices.HandlerIsARun | backend/src/worker/notification.consumer.ts:58-111 | an uninterrupted handler is a run of the machine and leaves its copy gone, dead, or back on the main queue |
| DeliveryServices.PushService.SendToUser | backend/src/push/push.service.ts:42-65 | every subscription of the user is tried, the given-up ones that can be deleted and no others are removed, and it fails if and only if some attempt failed otherwise or a row could not be deleted |
| Queue.RoutesAreTheLadder | backend/src/queue/queue.service.ts:163-196 | the asserted topology sends events, retry copies, expired retries and refused messages to exactly the queues Delivery puts them in, with the delay of their retry |
| Queue.OpeningIsIdempotent | backend/src/queue/queue.service.ts:163-164 | asserting the topology again changes nothing and is not refused |
| Queue.QueueService.Open | backend/src/queue/queue.service.ts:157-209 | connected if and only if the broker is reachable and no queue exists with other arguments; then the whole topology is there, else an attempt is scheduled |
| Queue.QueueService.AssertTopology | backend/src/queue/queue.service.ts:165-196 | succeeds exactly on a compatible broker and then leaves what was there plus the whole topology |
| Queue.QueueService.Publish | backend/src/queue/queue.service.ts:68-88 | an answered message is in exactly the queues its key routes to; full buffers answer false although it is |
| Queue.QueueService.OnConnectionClosed | backend/src/queue/queue.service.ts:211-219 | the connection is forgotten, the broker keeps what it holds, and an attempt is scheduled unless closing or scheduled already |
| Queue.QueueService.ScheduleReconnect | backend/src/queue/queue.service.ts:221-229 | one timer at a time, waiting longer with each failure up to ten seconds |
| Tokens.TokensService.RotateToken | backend/src/auth/tokens.service.ts:109-166 | the method leaves the rows and gives the answer of the rotation rule; it answers reuse if and only if the token's user is active and its first use was thirty seconds ago or more, and then the family is gone and nothing else |
| Tokens.RotationIsDecided | backend/src/auth/tokens.service.ts:109-166 | each answer is given exactly under its own condition: a used token is answered with one of its own, all rows kept, within thirty seconds of its first use, and refused with its family deleted from then on; an unused one is answered and marked up to its expiry; what is issued expires in seven days |
| Tokens.OtherRowsStay | backend/src/users/users.service.ts:143-145 | no event touches a row of another user, or, for a presentation, of another login |
| Tokens.SuspensionLocksOut | backend/src/users/users.service.ts:134-145 | a suspended user has no rows and cannot sign in until restored, and nobody else's status changes |
| Tokens.TokensService.IssueTokens | backend/src/auth/tokens.service.ts:71-102 | adds one unused row of that user and family that expires in seven days |
| Tokens.TokensService.Claim | backend/src/auth/tokens.service.ts:152-159 | marks the row if it is there and unused, and reports whether it did |
| Tokens.TokensService.Revoke | backend/src/auth/tokens.service.ts:169-173 | removes that row alone |
| Tokens.SiblingsAllSucceed | backend/src/auth/tokens.service.ts:13-20 | any number of presentations within the grace window of the first each yield a token of the same user and family; nothing is revoked, and the row keeps the time of its first use |
| Tokens.ReplayEndsTheLogin | backend/src/auth/tokens.service.ts:129-137 | a later presentation is refused and from then on every token ever drawn in the family is unknown; other families are untouched |
| Tokens.EmptyFamiliesStayEmpty | backend/src/auth/tokens.service.ts:73-75 | a family without rows never gets one again in any run of whole calls |
| Tokens.RowsAreUsedOnce | backend/src/auth/tokens.service.ts:153-156 | a row changes only by recording its first use, once, and a deleted row never returns |
| Tokens.FamiliesHaveOneUser | backend/src/auth/tokens.service.ts:94-97 | in runs of whole calls the rows of a family belong to one user, who is not suspended |
| TokenRaces.ClaimsAreWonOnce | backend/src/auth/tokens.service.ts:145-157 | however presentations of a token interleave, at most one wins the claim |
| TokenRaces.RowsAreUsedOnce | backend/src/auth/tokens.service.ts:153-156 | statement by statement too, the first use is recorded once and never overwritten |
| TokenRaces.RotationStaysInTheFamily | backend/src/auth/tokens.service.ts:158-164 | every token issued by rotation, raced or not, is in the family and of the user of the one presented |
| TokenRaces.RevocationIsFinalIff | backend/src/auth/tokens.service.ts:130-136 | an emptied family is empty in every continuation if and only if no call in flight has read one of its rows and may still issue |
| TokenRaces.DeadFamiliesStayDead | backend/src/auth/tokens.service.ts:133-136 | without such a call the family stays empty under any interleaving |
| TokenRaces.PendingCallsRevive | backend/src/auth/tokens.service.ts:160-164 | any such call can issue a live row of the family and user it has read, whatever has become of them since |
| TokenRaces.RevokedFamilyIsRevived | backend/src/auth/tokens.service.ts:129-132 | a reachable run in which that happens |
| TokenRaces.AloneItIsAtomic | backend/src/auth/tokens.service.ts:109-166 | a call whose statements are not interrupted does what the rotation rule says |
| TokenSuspension.SuspensionIsFinalIff | backend/src/users/users.service.ts:141-145 | a suspended user without rows has none in any continuation of the suspension if and only if no rotation in flight has read one of the user's rows and may still issue, and no sign-in in flight has read the user as active |
| TokenSuspension.FrozenUsersStayOut | backend/src/auth/auth.service.ts:133-139 | without such a rotation or sign-in the user gets no row until made active again |
| TokenSuspension.SignInsRevive | backend/src/auth/auth.service.ts:93-104 | any sign-in that has read the user as active can still give the suspended user a live row |
| TokenSuspension.SuspendedMidSignIn | backend/src/auth/auth.service.ts:93-104 | a reachable state in which a user is suspended between a sign-in's test of the status and its issue, with no rotation in flight |
| TokenSuspension.RevivedRowIsUsable | backend/src/auth/tokens.service.ts:121-150 | such a row is exchanged for another once the user is active again |
| TokenSuspension.SuspendedMidRotation | backend/src/auth/tokens.service.ts:121-125 | a reachable state in which a user is suspended between a call's tests and its claim |
| Rates.ConvertIsNearest | backend/src/rates/convert-minor.ts:6-11 | within the working precision the result is the one nearest integer to amount times rate, ties to even |
| RatesOrder.ConvertIsMonotone | backend/src/rates/convert-minor.ts:6-11 | no greater amount and no higher rate ever converts to more, however many decimals the rates are written with and however long the products |
| RatesOrder.SameRateConvertsAlike | backend/src/rates/convert-minor.ts:6-11 | the same rate written with other decimals converts alike |
| RatesOrder.ConvertAtRateOne | backend/src/rates/convert-minor.ts:6-11 | rate one, however written, changes no amount of up to twenty digits |
| Rates.SplittingShiftsCredit | backend/src/rates/convert-minor.ts:3-5 | k parts credit at most (k+1)/2 units more or less than the whole |
| Rates.CreditIsPositiveIff | backend/prisma/schema.prisma:84 | for every amount and rate: a credit is positive exactly when the product exceeds half a unit and is not cut to just half of one, and a zero credit for more than half a unit is a tipped tie |
| Rates.LostCreditExample | backend/prisma/schema.prisma:84 | 17829 at 0.000028044197655505076 is worth more than half a unit and credited nothing |
| Rates.ConvertIsNearestIffNotTipped | backend/src/rates/convert-minor.ts:6-11 | beyond the working precision too, the result is the nearest integer if and only if cutting the product made no tie |
| Rates.FitIsNearest | backend/src/rates/convert-minor.ts:6-11 | a product of more than twenty digits is first cut to the nearest multiple of that power of ten, of two the greater |
| Rates.TippedExample | backend/src/rates/convert-minor.ts:6-11 | 10001 at 1.4997000299970003 is credited 14998 although 14999 is nearest |
| Fields.SanitizeDecimal | customer/lib/format/sanitize-number.ts:16-36 | the loop computes the character-by-character filter |
| Fields.SanitizedIsInGrammar | customer/lib/format/sanitize-number.ts:16-36 | whatever is typed, the field holds a text of the decimal grammar |
| Fields.FixedExactlyOnGrammar | customer/lib/format/sanitize-number.ts:16-36 | the texts left alone are exactly those of the grammar |
| Fields.SanitizeKeeps | customer/lib/format/sanitize-number.ts:16-36 | character by character the filter makes of any text what one look says: the digits before the first point without needless zeros, that point, and the digits after it, as many as the limits admit |
| Fields.OthersAreDropped | customer/lib/format/sanitize-number.ts:24 | a character that is neither digit nor point might as well not be there, wherever it stands |
| Fields.TypingIsPasting | customer/lib/format/sanitize-number.ts:3-8 | typing key by key leaves what pasting the whole leaves |
| Fields.WholeLimitIsKeptIff | customer/lib/format/sanitize-number.ts:9-14 | the limit on the whole part holds for every input if and only if it is at least one or no point is allowed |
| Fields.InputElement.OnChange | customer/lib/format/sanitize-number.ts:54-62 | the form reads the filtered value |
| Fields.CodesCanBeTyped | customer/lib/format/sanitize-number.ts:46-48 | a code filled in pieces is the code filled at once |
| Amounts.ParseIsExact | customer/lib/format/parse-amount.ts:5-12 | defined exactly on positive amounts of the matched form, and exactly a hundred times the decimal value |
| Amounts.MatchesIff | customer/lib/format/parse-amount.ts:5-8 | the matched texts are digits, alone or followed by a point and one or two digits |
| Amounts.TrimSplits | customer/lib/format/parse-amount.ts:6 | trimming takes nothing but white space off the two ends |
| Amounts.FieldsParse | customer/lib/format/parse-amount.ts:5-12 | on a filtered amount: defined if and only if it ends in a digit and is not zero, exact, and far below 2^53 |
| Amounts.PrintedAmountsParse | customer/components/wallet/money-request-wizard.tsx:89 | parsing inverts two-decimal printing of every positive amount |
| Amounts.PrintedAmountsAreKept | customer/components/wallet/money-request-wizard.tsx:89 | the field leaves a printed amount as it is |
| TableParams.ParseTableParams | frontend/lib/table/params.ts:27-40 | the method computes the parse |
| TableParams.TableHref | frontend/lib/table/params.ts:58-78 | the method prints the patched state, dropping defaults |
| TableParams.ParseInvertsPrint | frontend/lib/table/params.ts:1-3 | every table state whose page is a number of the format or Infinity survives printing and parsing |
| TableParams.LinksLeadToThePatchedState | frontend/lib/table/params.ts:57-78 | following a link leads to exactly the patched state: what the patch names is replaced, filters set to nothing are gone, the rest is kept, and the page is the first unless only the page was patched |
| TableParams.LinksAreClean | frontend/lib/table/params.ts:71-75 | a link names exactly what is not at its default, and nothing else |
| TableParams.ParseIsNormalIff | frontend/lib/table/params.ts:27-40 | every parse is a table state, except exactly when a text is cut right after a space |
| TableParams.ParsedPage | frontend/lib/table/params.ts:31-33 | the page is the one asked for without its fraction, at least the first, and a number of the format unless it reads as Infinity; the size is the one asked for if it is 20, 50 or 100 |
| TableParams.ParsedTexts | frontend/lib/table/params.ts:27-38 | the search is the first one given, trimmed and cut to 100 characters; the filters are those of the table that are given and not blank, cut to 60 |
| TableParams.SortIsRead | frontend/lib/table/params.ts:29-30 | a sort text counts exactly when it says a field of the table and a direction, whatever follows a second colon; otherwise the sort is the default |
| TableParams.ParsedSkip | frontend/lib/table/params.ts:39 | skip is Infinity exactly when the page is or the product of the page before and the size overflows; otherwise no number of the format is nearer to that product, and it is the rows before the page as long as a mantissa holds their number |
| TableParams.HugePageExample | frontend/lib/table/params.ts:33-39 | a finite page whose skip is Infinity |
| Doubles.OverflowsIff | frontend/lib/table/params.ts:39 | a computed count is Infinity exactly from half a unit below the least power of two that is too great |
| Doubles.RoundIsNearest | frontend/lib/table/params.ts:39 | no number of the format is nearer to a count than what it is rounded to |
| TableParams.CutSearchExample | frontend/lib/table/params.ts:28 | a search that is cut after a space |
| Cache.CacheService.Get | backend/src/cache/cache.service.ts:49-57 | a live value, or nothing if there is none or Redis fails |
| Cache.CacheService.Set | backend/src/cache/cache.service.ts:59-65 | stores with the lifetime, or changes nothing if Redis fails |
| Cache.CacheService.Del | backend/src/cache/cache.service.ts:67-73 | removes the key, or changes nothing if Redis fails |
| Cache.CacheService.Warn | backend/src/cache/cache.service.ts:101-106 | no warning repeats the one before it |
| Cache.CacheService.Wrap | backend/src/cache/cache.service.ts:84-98 | the hit if there is one, else the source's own result, stored for the lifetime it was judged to deserve |
| Cache.AnswersAreGenuine | backend/src/cache/cache.service.ts:75-98 | whatever Redis does, each answer is the call's own result or one that another call for the key produced less than its lifetime ago, which is that call's own unless the judgement named another; a result judged never to be kept is never served |
| Cache.OutagesAreBrief | backend/src/markets/markets.service.ts:44-62 | an empty market list is served for less than eight seconds after it was stored |
| Cache.FullResultsLast | backend/src/markets/markets.service.ts:44-62 | a list with something in it is served for the lifetime its call asked for and no longer |
| Cache.ListsAreJudged | backend/src/markets/markets.service.ts:50-61 | an empty list is kept eight seconds by the markets and not at all by default, any other for the lifetime asked for |
| Cache.EmptyResultsAreNotServed | backend/src/cache/cache.service.ts:15-17 | under a key judged by default a missing or empty result is never served |
| Cache.WrapIsARun | backend/src/cache/cache.service.ts:84-98 | one call alone is a run of the machine with the same answer and store |
| Alerts.AlertCheckService.Check | backend/src/realtime/alert-check.service.ts:21-48 | marks exactly the pending alerts the prices cross, adds one event for each and dispatches them |
| Alerts.AlertCheckService.EnqueueAll | backend/src/realtime/alert-check.service.ts:36-45 | one event for each fired alert, after those it had |
| Alerts.FiresAtFirstCrossing | backend/src/realtime/alert-check.service.ts:22-27 | an alert fires at the first committed check whose price crosses its target and never again, and its one event shows that price |
| Alerts.MarkedIffReached | backend/src/alerts/is-triggered.ts:1-4 | a pending alert is marked if and only if a committed check saw a price at or above its target, or at or below it for an alert below; it then carries the time of the first that did, and its one event shows that price |
| Alerts.LastPriceCounts | backend/src/realtime/alert-check.service.ts:22 | of several prices of a symbol the last counts |
| Alerts.OneEventIffMarked | backend/src/realtime/alert-check.service.ts:31-35 | in runs of whole checks an alert has exactly one event if it is marked and none otherwise |
| AlertRaces.SecondCheckNotifiesIff | backend/src/alerts/alerts.service.ts:43-53 | with any number of checks, additions and deletions interleaved, an alert that has had its event gets no further one in any continuation if and only if no check in flight still holds it as fired |
| AlertRaces.OverlapNotifiesTwice | backend/src/realtime/price-stream.service.ts:20-36 | two checks that both read a pending alert before either commits notify twice |
| AlertRaces.DisjointChecksNotifyOnce | backend/src/realtime/alert-check.service.ts:21-48 | as long as checks do not overlap every alert has at most one event, even if alerts come and go between a check's read and its commit |
| AlertRaces.MarkedIffNotified | backend/src/realtime/alert-check.service.ts:31-35 | however checks interleave, an alert is marked if and only if it has an event |
| AlertRaces.AloneItIsChecked | backend/src/realtime/alert-check.service.ts:21-48 | a check that nothing comes between does what is said of a whole one |

## Left out

- User interfaces, route handlers, controllers, modules, validation decorators, logging, metrics: wiring; the validators' bounds are preconditions.
- Realtime balance messages and the wording of notifications: best-effort display; the events carry their recipient, amount, currency and subject.
- Timestamps of ledger and audit rows, wallet names, and the extra values in audit entries: no branch reads them.
- Listing, searching and staff queries of wallets, transactions and users: single database reads.
- Pending deposits, which the code can still review but no longer creates, come into the ledger only with its initial tables.
- LedgerSerial.InterleavingIsSerial: a row whose random id a caller guesses before it is committed is not modelled, because the ids are random; nor is a stopped database.
- LedgerSerial.RunsCanDrain: the row a withdrawal request inserts references its wallet (`backend/prisma/schema.prisma:81`), so its insert waits for a holder of that wallet's lock, which the request's script leaves out; it holds nothing while it waits and waits for nothing afterwards, so it adds no deadlock.
- LedgerSerial.StopIsExplained: a rejection reads the wallet's owner and currency after its first write, the model before it; neither ever changes. The sender's handle in a notification is not read.
- The rate provider, push provider, Kraken, CoinLore, Frankfurter and the Redis, RabbitMQ and PostgreSQL internals: contracts stated above.
- Signing, password hashing, one-time codes and passkeys: cryptography; hashes are taken to be injective.
- Tokens.EmptyFamiliesStayEmpty: takes each call as one step; TokenRaces.RevocationIsFinalIff is the statement for interleaved calls.
- Idempotency.KeysRunOnceInADay: needs the writes that record the key's answers to succeed; the code does not run once otherwise.
- IdempotencyServices.IdempotencyService.Reserve: the retry after a key vanished between the insert and the read needs a second request at work, so it is a step of Idempotency, not of the method.
- DeliveryLoss.NoEventIsLost: malformed and foreign messages, which the consumer refuses, are handled in NotificationConsumer.Handle only.
- DeliveryServices.NotificationConsumer.Handle: parsing the JSON body is a parameter; draining at shutdown is not modelled.
- DeliveryServices.PushService.SendToUser: tries subscriptions one after the other, in any order; the code starts them together.
- Queue.QueueService.Publish: consuming, health probes and test helpers of the service are not part of this model.
- Amounts.ParseIsExact: is about exact integers; beyond 2^53 the code's numbers round, which no field text reaches.
- Fields.SanitizeDecimal: characters are code points; a length counted in UTF-16 units can differ only for text that is filtered out anyway.
- TableParams.ParsedSkip: holds of every binary format of 11 bits or more; that JavaScript's is binary64 is stated in Doubles, not proved of `Number`.
- TableParams.ParseInvertsPrint: the order of parameters, percent-encoding, and texts cut in the middle of a surrogate pair are not modelled.
- The query string for the API, the page label, and the number formats of prices and charts: display.
- Alerts.OneEventIffMarked: takes each check as one step; AlertRaces.SecondCheckNotifiesIff is the statement for overlapping checks.
- Tokens.FamiliesHaveOneUser: takes each call as one step; TokenSuspension.SuspensionIsFinalIff is the statement for interleaved calls.
- IdempotentLedger.RetriesActAsOne: needs that no handler of the key ends in an error after its commit; the ledger may commit once more for each that does.
- DeliveryOnce.SentAtMostOnceIff: the limit of ten deliveries at a time is not enforced; other handlers can always end first.
- Cache.AnswersAreGenuine: values are taken to come back from JSON as they were.
