# Payment orchestration: a verified model

The repository is a payment orchestration engine. API calls, webhook workers, the browser-return
handler and a reconciliation batch all drive the same few durable tables, each through short
database transactions with gateway calls in between. This project models those actors in Dafny
and proves what every interleaving of their steps keeps.

| file | what it models |
|---|---|
| `StateGraph.dfy` | the 23-state transition map and the shape of every audit log over it |
| `TransactionStore.dfy` | the transactions table, its append-only log, `transition()`, and arbitrary interleavings of every actor's writes |
| `CaptureWalks.dfy` | `advanceTransaction`/`pathTo` from stale reads, many walks at once, and the browser-return driver |
| `Payments.dfy` | capture, refund and void as multi-step API calls, with other actors' steps in every gap |
| `RefundRaces.dfy` | any number of refund calls on one transaction, overlapping in any way |
| `Reconciliation.dfy` | the reconciliation batch, its query and its convergence |
| `Idempotency.dfy` | the key service, and its lock/read/write/commit protocol under an arbitrary lock hash |
| `PaymentInitiation.dfy` | `initiatePayment` against the unique indexes, alone and with any number of calls and purges |
| `WebhookQueue.dfy` | queue rows, dedup markers, one attempt, the worker's drain |
| `WebhookDelivery.dfy` | concurrent attempts on duplicate rows that may throw at any point |
| `CircuitBreaker.dfy` | the breaker as methods, and the event history it stands for |
| `GatewayHealth.dfy` | sample buffering, flush with its percentile, sliding window |
| `GatewayRouter.dfy`, `RoutingLaws.dfy` | scoring, sort, degraded skip, and how the choice reacts to its inputs |
| `Sessions.dfy`, `SessionRaces.dfy` | refresh-token families, first with atomic calls, then with the reads and writes of any number of calls interleaved |
| `Lockout.dfy` | the login lockout as a rate bound |
| `NairaAmounts.dfy` | kobo to naira and back under floating-point rounding |

The form is the same throughout. What the source does step by step is a class whose methods are
proved equal to a function of the old state; what holds over whole runs is proved about that
function, or about a state machine whose steps are the separate database transactions. Where both
exist, a lemma says that the machine's steps, run without interference, are the method.

Gateway answers, clock readings, fresh ids, the outcome of a password check and the point where an
attempt throws are parameters, so every theorem holds for all of them.

## Where the code does less than it promises

Each of these is a lemma, or a method's contract, with the concrete situation, beside the exact
condition under which the promise does hold.

- A key marked FAILED is granted again, but the failed attempt's row makes the new insert violate
  the unique index, and the key then stays PROCESSING (`RetryAfterFailureIsNotServed`, `UsedKeyIsSpent`).
- The critical "captured here, failed at the gateway" anomaly (FS-11) can never come out of the
  batch, whose query only returns states that are not captured (`CriticalAnomalyExactly`, `BatchNeverFindsCriticalAnomaly`).
- A CAPTURED transaction can read as zero captured: after reconciliation, or when a walk is cut
  between its last transition and the amount (`CapturedWithoutAmount`, `CutWalkRecordsAmount`).
- Refund conservation fails in two ways. A call can store its total and then fail to store its
  refund row: `refunds.idempotency_key` takes 255 characters and the request bounds its key not at all
  (`RefusedRowUnbalances`; exactly: `RefundConservation`). And overlapping calls overwrite each
  other's total: with all rows stored the books balance exactly as long as at most one call has
  written (`RacingRefundsBalanceExactly`), which for two calls at the gateway together means that
  it did not answer both with the same kind of refund (`TwoRefundsBalanceExactly`).
- A second capture overwrites the amount of the first (`SecondCaptureOverwrites`).
- A gateway's returned, not thrown, refund status `failed` counts as a full refund, and the status
  a void returns is not looked at. `RefundConservation` and `VoidAlone` hold with that behaviour.
- Refresh, logout and session revocation each read a token and mark it later, unconditionally. A
  family is one chain exactly as long as no token is marked again after a refresh has marked it
  (`ChainsExactly`): two refreshes of one token always do that (`RefreshedTwiceIsRemarked`), and so does
  a logout that writes after the refresh, which erases the link (`LateLogoutErasesLink`). And a reused
  token kills its family for good exactly if no refresh that had read a token of it is still to
  issue (`ReuseIsFinalExactly`).
- `guardRequest` has no caller in `src`, and without guards a tripped breaker stays open whatever is
  reported (`OpenWithoutGuards`) and HALF_OPEN is never reached (`UnguardedNeverHalfOpen`).
- With two or more half-open requests configured, one successful probe shuts the gate
  (`HalfOpenWedges`) until enough reports of requests let through before arrive (`GuardRejectsExactly`).
- A gateway with a recorded p95 of 0 beside one with a positive p95 gets a latency score above 1
  (`LatencyScoreInRangeExactly`), and its score can depend on the unit of time (`LatencyScoreScalesExactly`).
- Samples recorded while a flush awaits its save are cleared with the rest (the contract of `Flush`).
- The request hash stored with an idempotency key is never compared (`ReplayIgnoresBody`).
- `docs/state-machine.md` has no edge from VOID_INITIATED back to CAPTURE_INITIATED; the map does, and
  `voidPayment` uses it when the gateway throws (`VoidAlone`). The model follows the map.

## Model

| member | source | states |
|---|---|---|
| `StateGraph.TerminalMeansNoWayOut` | src/modules/transactions/state-machine/state-transitions.map.ts:9-150 | the separately maintained terminal set is exactly the states the map gives no successor, and no state has an edge to itself |
| `StateGraph.DiagramIsTheMap` | src/modules/transactions/state-machine/state-transitions.map.ts:9-136 | the map has exactly the arrows docs/state-machine.md draws, read target by target, and the one from VOID_INITIATED to CAPTURE_INITIATED |
| `StateGraph.PhaseNeverDrops` | src/modules/transactions/state-machine/state-transitions.map.ts:9-136 | along any log of map edges a life-cycle rank never drops |
| `StateGraph.EnteredAtMostOnce` | src/modules/transactions/state-machine/state-transitions.map.ts:9-136 | no log enters AUTHORISED, CAPTURED or SETTLED twice |
| `StateGraph.StagesInOrder` | src/modules/transactions/state-machine/state-transitions.map.ts:9-136 | every post-authorisation stage has an earlier AUTHORISED, every post-capture stage an earlier full or partial capture, every capture an earlier capture request |
| `StateGraph.RefundPresupposesCapture` | src/modules/transactions/state-machine/state-transitions.map.ts:9-136 | every REFUND_INITIATED has an earlier capture that itself had an authorisation and a capture request before it |
| `StateGraph.VoidExcludesCapture` | src/modules/transactions/state-machine/state-transitions.map.ts:9-136 | a log with VOIDED ends there and never holds CAPTURED, SETTLED or REFUND_INITIATED |
| `StateGraph.PartialCaptureCanEndVoided` | src/modules/transactions/state-machine/state-transitions.map.ts:9-136 | the exclusion stops at full captures: a well-formed log enters PARTIALLY_CAPTURED and ends VOIDED |
| `TransactionStore.TransactionStateMachine.Transition` | src/modules/transactions/state-machine/transaction-state-machine.service.ts:32-122 | succeeds exactly for a known row that is already there or one edge away; a duplicate or a rejection leaves row and log as they were, a move appends exactly its edge, bumps the version, and changes no column but state and, if one was given, gateway reference |
| `TransactionStore.ColumnsHaveTheirWriters` | src/modules/transactions/state-machine/transaction-state-machine.service.ts:69-86 | over every action of every actor: each column changes only through its own kind of write, to the value written, and every change bumps the version once |
| `TransactionStore.RowsBeginEmpty` | src/database/migrations/001-create-transactions.ts:45-83 | a transaction begins CREATED with nothing captured, refunded or routed |
| `TransactionStore.TransactionStateMachine.AssertValidTransition` | src/modules/transactions/state-machine/transaction-state-machine.service.ts:130-156 | the two guards together accept exactly the map's edges and report the valid targets otherwise |
| `TransactionStore.AuditLogRefinesState` | src/modules/transactions/state-machine/transaction-state-machine.service.ts:43-122 | under any interleaving of all actors' writes each transaction's log is an unbroken chain of map edges from CREATED to the stored state, without self-edges, and the row's version exceeds its length |
| `TransactionStore.StepKeepsConsistent` | src/database/migrations/002-create-transaction-state-log.ts:35 | every atomic step of any actor, from any consistent tables, keeps log and state consistent |
| `TransactionStore.HistoryIsPermanent` | src/modules/transactions/state-machine/transaction-state-machine.service.ts:88-114 | over any run the log is only extended, rows stay, and amounts never change |
| `TransactionStore.LifeCycleOrder` | src/modules/transactions/state-machine/state-transitions.map.ts:9-136 | the rank, at-most-once, refund-after-capture and void-exclusion laws for every transaction of every run of the tables |
| `TransactionStore.TransitionIsMove` | src/modules/transactions/state-machine/transaction-state-machine.service.ts:43-122 | a transition is a move of the one transaction it names and is invisible to every other |
| `CaptureWalks.PathIsWalkable` | src/modules/webhooks/webhook-processor.service.ts:229-244 | a path found is a chain of map edges ending in the target, either the target alone or the rest of the capture chain, and none is found exactly when the target is neither one edge away nor further along that chain |
| `CaptureWalks.WebhookProcessor.AdvanceTransaction` | src/modules/webhooks/webhook-processor.service.ts:189-225 | from any stale state and to any target: true means the row stands in the target; the captured amount becomes the full amount exactly for a completed walk to CAPTURED and is kept otherwise; amount, refunded amount, gateway and every other row and log are kept; false is returned exactly when there is no path, with nothing changed |
| `CaptureWalks.WalkAlongEdges` | src/modules/webhooks/webhook-processor.service.ts:189-225 | from the stored state itself no step of the path is ever rejected |
| `CaptureWalks.WalkLogsItsPath` | src/modules/webhooks/webhook-processor.service.ts:189-225 | such a walk logs exactly its path, one entry a step |
| `CaptureWalks.CutWalkResumes` | src/modules/webhooks/webhook-processor.service.ts:189-225 | a walk cut after any step and re-run from the stored state leaves the same log as the uncut one |
| `CaptureWalks.CutWalkRecordsAmount` | src/modules/webhooks/webhook-processor.service.ts:189-225 | the re-run also records the captured amount exactly when the cut came before the last transition |
| `CaptureWalks.StepKeepsWalksAgree` | src/modules/webhooks/webhook-processor.service.ts:189-225 | the inductive invariant of any number of walks on one transaction, kept by every step of a walk and of any other actor |
| `CaptureWalks.ConcurrentWalksAgree` | src/modules/webhooks/webhook-processor.service.ts:189-244 | any number of walks from stale reads amid any other transitions: CAPTURED is entered at most once, exactly once when a walk returned true, and the captured amount is full exactly when some walk returned true and 0 otherwise |
| `CaptureWalks.CapturedWithoutAmount` | src/modules/reconciliation/reconciliation.service.ts:119-241 | a run ends CAPTURED with nothing recorded as captured |
| `CaptureWalks.SoloWalk` | src/modules/webhooks/webhook-processor.service.ts:189-225 | a walk of the concurrent machine that is left alone ends as the sequential walk does |
| `CaptureWalks.VerifyAndAdvance` | src/modules/checkout/checkout.controller.ts:111-173 | the walk is submitted exactly when the transaction was read as AUTH_INITIATED at Interswitch and the retry loop settles on "captured" with the expected amount; otherwise no table changes; no other transaction ever does, and the gateway reference becomes the transaction's id exactly if the walk moved it |
| `CaptureWalks.SettledAnswerIsFirst` | src/modules/checkout/checkout.controller.ts:131-137 | the answer the retry loop settles on is the first that is not "authorised", and the last one asked for if all are |
| `Payments.TransactionsService.RefundPayment` | src/modules/transactions/transactions.service.ts:400-472 | tables, refund rows and result of a refund call, for every gateway answer, either of its last two writes failing, and everything others do in its four gaps; whatever they do, a call that settled leaves PARTIALLY_REFUNDED for a partial answer and REFUNDED for any other, with its own row last, and one that threw leaves REFUND_FAILED |
| `Payments.RefundAlone` | src/modules/transactions/transactions.service.ts:400-472 | undisturbed, from every state: which are accepted, the entries logged, and the state, amounts and refund rows left, by kind of answer |
| `Payments.TransactionsService.CapturePayment` | src/modules/transactions/transactions.service.ts:339-394 | the same for a capture: whatever others do, one that succeeds leaves the amount of its own answer and one that threw leaves CAPTURE_FAILED; and the amount asked of the gateway, which falls back to the whole payment for an absent or zero request |
| `Payments.TransactionsService.VoidPayment` | src/modules/transactions/transactions.service.ts:477-511 | the same for a void: one that succeeds leaves VOIDED, one that threw CAPTURE_INITIATED |
| `Payments.RefundCallConserves` | src/modules/transactions/transactions.service.ts:400-472 | one refund call amid anything but refunds of the same transaction: it gets to its writes only as the first, writes exactly its own amount or nothing, and leaves the books balanced exactly if they were and its row was not lost |
| `Payments.RefundConservation` | src/modules/transactions/transactions.service.ts:400-472 | over any sequence of non-overlapping refund calls, all else interleaving freely, at most one refund row is stored, and the refunded amount is the sum of the rows if and only if no call stored a nonzero total and lost its row |
| `Payments.RefusedRowUnbalances` | src/modules/transactions/transactions.service.ts:446-469 | a first refund whose row insert is refused leaves the transaction in a terminal refunded state with the full total and no row |
| `Payments.OverlappingRefundsLoseMoney` | src/modules/transactions/transactions.service.ts:400-472 | a second refund that is at the gateway while a first one finishes succeeds exactly if both get the same kind of answer, and unbalances the books exactly then, unless the first was of nothing |
| `RefundRaces.RaceStepKeepsInv` | src/modules/transactions/transactions.service.ts:400-472 | the invariant of any number of refund calls on one transaction amid any other transitions, kept by every database step |
| `RefundRaces.RacingRefundsBalanceExactly` | src/modules/transactions/transactions.service.ts:400-472 | over every such run, between writes: with every row stored the books balance if and only if at most one call wrote a total; with at most one such call, if and only if its row was stored |
| `RefundRaces.TwoRefundsBalanceExactly` | src/modules/transactions/transactions.service.ts:400-472 | two calls both past REFUND_INITIATED before either settles: for every schedule and every pair of answers the books balance if and only if the gateway did not answer both with the same kind of refund |
| `RefundRaces.SoloRefund` | src/modules/transactions/transactions.service.ts:400-472 | a call of that machine left alone does to its transaction and the refund rows what the method does |
| `Payments.CaptureAlone` | src/modules/transactions/transactions.service.ts:339-394 | which states accept a capture, whether it ends full or partial, and what is recorded; a refusal changes nothing |
| `Payments.ThrownCaptureAlone` | src/modules/transactions/transactions.service.ts:353-374 | a capture that throws is accepted by the same states, leaves CAPTURE_FAILED with nothing recorded, and can be tried again |
| `Payments.SecondCaptureOverwrites` | src/modules/transactions/transactions.service.ts:376-391 | after two captures the recorded amount is their sum exactly when the first captured nothing, and the state is CAPTURED exactly when the second alone covers the payment |
| `Payments.VoidAlone` | src/modules/transactions/transactions.service.ts:477-511 | a void that threw leaves a payment a capture can still complete, one that did not rules every capture out |
| `Reconciliation.ReconciliationService.ReconcileOne` | src/modules/reconciliation/reconciliation.service.ts:119-241 | for a row that may have moved since it was read: a resolved transaction stands, answer by answer, in AUTHORISED, CAPTURED, FAILED, REFUNDED or AUTH_EXPIRED; otherwise nothing changes; the finding records the transaction, what was read, the answer and the right kind of discrepancy |
| `Reconciliation.AgreeingAnswers` | src/modules/reconciliation/reconciliation.service.ts:14-20 | of all pairs of stored state and gateway answer exactly five give no finding |
| `Reconciliation.ReconciliationService.Run` | src/modules/reconciliation/reconciliation.service.ts:51-113 | with any steps of other actors between two transactions of the list: found = auto-resolved + needing review <= checked, the review count is that of the findings, and the findings are appended to the log |
| `Reconciliation.BatchAmidOthers` | src/modules/reconciliation/reconciliation.service.ts:51-113 | with any such steps log and rows stay consistent, every finding is about a listed transaction and its gateway answer, and one reported as resolved has entered the gateway's state on its own log |
| `Reconciliation.UndisturbedBatch` | src/modules/reconciliation/reconciliation.service.ts:51-113 | with nobody else at work that is the batch the convergence laws below are about |
| `Reconciliation.ResolvedOrUntouched` | src/modules/reconciliation/reconciliation.service.ts:119-241 | a resolved transaction stands in the gateway's state, outside the reconcilable states, by at most one logged map edge; every other outcome leaves the tables alone |
| `Reconciliation.AutoResolvableCases` | src/modules/reconciliation/reconciliation.service.ts:14-20 | of the 20 pairs of reconcilable state and gateway answer exactly four are resolved, each into the state listed with it; the rest change nothing |
| `Reconciliation.PolledStates` | src/modules/transactions/state-machine/state-transitions.map.ts:165-170 | the batch asks about exactly the aged transactions with a reference in one of the four waiting states |
| `Reconciliation.ReviewsCount` | src/modules/reconciliation/reconciliation.service.ts:74-87 | the counter of a run is the number of findings that need review |
| `Reconciliation.CriticalAnomalyExactly` | src/modules/reconciliation/reconciliation.service.ts:243-269 | the critical anomaly is raised exactly for a captured state the gateway reports failed or expired |
| `Reconciliation.BatchNeverFindsCriticalAnomaly` | src/modules/transactions/repositories/transaction.repository.ts:119-130 | no batch over rows the query can return raises it |
| `Reconciliation.BatchIsPointwise` | src/modules/reconciliation/reconciliation.service.ts:51-113 | each listed transaction ends, and is reported, as if it had been the only one |
| `Reconciliation.BatchSettles` | src/modules/reconciliation/reconciliation.service.ts:51-113 | after a run over a fresh list, resolved transactions moved by a map edge to the gateway's state and are no longer due, all others are untouched |
| `Reconciliation.SecondRunFindsTheSame` | src/modules/reconciliation/reconciliation.service.ts:51-113 | with the same answers and no other actor a second run resolves nothing, changes nothing and flags the same set |
| `Idempotency.IdempotencyService.AcquireOrReturn` | src/modules/idempotency/idempotency.service.ts:36-119 | a request is new exactly when the key is absent or FAILED and then holds a PROCESSING record; replay and conflict change nothing |
| `Idempotency.IdempotencyService.InsertProcessing` | src/modules/idempotency/repositories/idempotency-key.repository.ts:27-46 | reports an insert exactly when there was no record, and never overwrites one |
| `Idempotency.IdempotencyService.MarkCompleted` | src/modules/idempotency/idempotency.service.ts:125-145 | the next acquire of an existing key replays exactly this response |
| `Idempotency.IdempotencyService.MarkFailed` | src/modules/idempotency/idempotency.service.ts:151-158 | the next acquire of the key is granted |
| `Idempotency.IdempotencyService.PurgeExpired` | src/modules/idempotency/repositories/idempotency-key.repository.ts:71-80 | deletes exactly the expired records that are not COMPLETED, leaves the rest as they are and counts what it deleted |
| `Idempotency.ReplayIgnoresBody` | src/modules/idempotency/idempotency.service.ts:58-80 | a completed key replays to a request with any other body, keeping the first body's hash |
| `Idempotency.LockExcludes` | src/modules/idempotency/idempotency.service.ts:36-119 | two requests between lock and commit on one key are the same request |
| `Idempotency.StepKeepsProtocolInv` | src/modules/idempotency/idempotency.service.ts:36-119 | the ownership invariant of lock, read, write and commit, kept by every step under every lock hash |
| `Idempotency.HoldersExcludeEachOther` | src/modules/idempotency/idempotency.service.ts:36-119 | for every hash and interleaving at most one live holder per key exists and its record is PROCESSING |
| `Idempotency.CompletedIsForever` | src/modules/idempotency/repositories/idempotency-key.repository.ts:71-80 | once COMPLETED a record never changes, and every request that had not read it before and is answered gets its code and body; none acquires the key |
| `Idempotency.OtherKeysUntouched` | src/modules/idempotency/idempotency.service.ts:36-119 | steps for other keys leave a record alone even on a shared lock; a purge removes exactly the expired records that are not completed and have no live holder |
| `Idempotency.HolderEnds` | src/modules/idempotency/idempotency.service.ts:125-158 | what each end of a holder writes to its record |
| `Idempotency.UninterruptedAcquire` | src/modules/idempotency/idempotency.service.ts:36-119 | the protocol's five steps without interference do exactly what the service method does and give the lock back |
| `PaymentInitiation.PaymentInitiator.InitiatePayment` | src/modules/transactions/transactions.service.ts:60-333 | when a row is stored, when a gateway is called, what becomes of the key and what is returned, over all key states, routing failures and gateway answers; a request with a new key is stored, sent and on approval returned exactly if no row of its own merchant has its key or its order |
| `PaymentInitiation.FreshRequestIsServed` | src/database/migrations/001-create-transactions.ts:87-96 | in every reachable system such a request, left alone, is stored, sent once and returned, and its key completed |
| `PaymentInitiation.CreateStoresExactly` | src/database/migrations/001-create-transactions.ts:87-96 | the insert is refused exactly for a row of the same merchant with the same key or order |
| `PaymentInitiation.OtherMerchantsNeverDecide` | src/database/migrations/001-create-transactions.ts:87-96 | whether a request can be stored depends on its own merchant's rows alone |
| `PaymentInitiation.PurgeForgetsExactly` | src/modules/idempotency/repositories/idempotency-key.repository.ts:71-80 | a purge amid calls forgets exactly the expired keys that are not completed |
| `PaymentInitiation.PaymentInitiator.FindByOrder` | src/modules/transactions/repositories/transaction.repository.ts:41-48 | finds a transaction of the merchant and order exactly when there is one |
| `PaymentInitiation.CallStepKeepsInv` | src/modules/transactions/transactions.service.ts:64-172 | the ownership invariant of any number of initiation calls, kept by every step of any of them and by purges |
| `PaymentInitiation.AtMostOneAuthorise` | src/database/migrations/001-create-transactions.ts:87-96 | over any interleaving of calls, retries and purges at most one row and at most one authorise per (merchant, key) and per (merchant, order) |
| `PaymentInitiation.RepeatsReturnTheSame` | src/modules/transactions/transactions.service.ts:64-97 | calls for one merchant and order only ever return the one transaction |
| `PaymentInitiation.RetryAfterFailureIsNotServed` | src/modules/transactions/transactions.service.ts:64-115 | a retry of a FAILED key is granted, throws at the insert, and leaves the key refusing later attempts |
| `PaymentInitiation.FailedKeyIsReached` | src/modules/transactions/transactions.service.ts:207-232 | one call that the gateway refuses leads from the empty system to such a FAILED key |
| `PaymentInitiation.UsedKeyIsSpent` | src/database/migrations/001-create-transactions.ts:87-96 | once a transaction carries a key, no other call ever stores or sends one for it, whatever happens in between |
| `WebhookQueue.WebhookQueueRepository.Enqueue` | src/modules/webhooks/repositories/webhook-queue.repository.ts:16-23 | the new row is due at once and no other row changes |
| `WebhookQueue.WebhookQueueRepository.MarkFailedWithRetry` | src/modules/webhooks/repositories/webhook-queue.repository.ts:51-72 | after one failure the row is due again two seconds later, after two four seconds later, from the third on never |
| `WebhookQueue.WebhookQueueRepository.RequeueFromDLQ` | src/modules/webhooks/repositories/webhook-queue.repository.ts:86-93 | any row, whatever its status, is due at once with no failures counted, and no other changes |
| `WebhookQueue.ProcessedWebhookEventRepository.InsertIfNotExists` | src/modules/webhooks/repositories/processed-webhook-event.repository.ts:18-39 | reports new exactly when the marker was absent, and it is there afterwards |
| `WebhookQueue.WebhookProcessor.ProcessOne` | src/modules/webhooks/webhook-processor.service.ts:42-177 | wherever the attempt throws: its row completed or failed once more with its next time, every other row kept, and the marker left exactly by an attempt that completed and whose transaction was stored or not named |
| `WebhookQueue.AttemptIsContained` | src/modules/webhooks/webhook-processor.service.ts:42-177 | the same of the function the other theorems are about |
| `WebhookQueue.WebhookWorker.Drain` | src/modules/webhooks/webhook-worker.service.ts:36-49 | a drain during another does nothing; otherwise it makes the listed attempts in order, up to the first row that cannot be marked PROCESSING, and clears the flag either way |
| `WebhookQueue.DrainAttemptsEachOnce` | src/modules/webhooks/webhook-worker.service.ts:36-49 | every listed row ends as its own single attempt leaves it, every other row is untouched |
| `WebhookQueue.DrainMarks` | src/modules/webhooks/webhook-worker.service.ts:36-49 | the markers a drain adds are exactly those of its completed rows whose transaction was stored or not named |
| `WebhookDelivery.DeliveryStepKeepsInv` | src/modules/webhooks/webhook-processor.service.ts:47-177 | the marker-ownership and nothing-lost invariant, kept by every step of every concurrent attempt |
| `WebhookDelivery.AppliedAtMostOnce` | src/modules/webhooks/webhook-processor.service.ts:47-177 | at most one row of an event ever finishes as its owner |
| `WebhookDelivery.OnlyTheClaimantReleases` | src/modules/webhooks/repositories/processed-webhook-event.repository.ts:50-52 | a marker disappears only through the attempt that inserted it, while no other attempt holds or finished with it |
| `WebhookDelivery.DuplicatesAreCovered` | src/modules/webhooks/webhook-processor.service.ts:47-177 | for a row completed as a duplicate the marker is there or another row of the event that finds its transaction is unfinished |
| `WebhookDelivery.EndingsAreFinal` | src/modules/webhooks/repositories/webhook-queue.repository.ts:43-48 | no later step changes a row that has completed |
| `WebhookDelivery.RetriesAreBounded` | src/modules/webhooks/repositories/webhook-queue.repository.ts:51-93 | over any run PENDING means 0 failures, FAILED 1 or 2, DLQ 3, and a row is attempted at most three times per enqueue or replay |
| `WebhookDelivery.FailurePostpones` | src/modules/webhooks/repositories/webhook-queue.repository.ts:51-72 | after a failure the row is taken again exactly if fewer than three failed and 2^count seconds have passed |
| `WebhookDelivery.UninterruptedAttempt` | src/modules/webhooks/webhook-processor.service.ts:42-177 | an attempt's steps without interference leave exactly what the method leaves |
| `CircuitBreaker.CircuitBreakerService.GuardRequest` | src/modules/gateways/circuit-breaker/circuit-breaker.service.ts:34-73 | admission and new state of a guard, touching only its own (gateway, method) entry |
| `CircuitBreaker.CircuitBreakerService.RecordSuccess` | src/modules/gateways/circuit-breaker/circuit-breaker.service.ts:78-100 | the same for a reported success |
| `CircuitBreaker.CircuitBreakerService.RecordFailure` | src/modules/gateways/circuit-breaker/circuit-breaker.service.ts:105-133 | the same for a reported failure |
| `CircuitBreaker.CircuitBreakerService.GetState` | src/modules/gateways/circuit-breaker/circuit-breaker.service.ts:138-140 | reads the state and changes no entry's meaning, though it may create one |
| `CircuitBreaker.BreakerRefinesHistory` | src/modules/gateways/circuit-breaker/circuit-breaker.service.ts:34-133 | for every config and event sequence the entry is what its history means: tripped or not, being probed or not, open since the trip in force, the successes since the first probe, and when closed a failure count equal to the run of failures and below the threshold |
| `CircuitBreaker.GuardRejectsExactly` | src/modules/gateways/circuit-breaker/circuit-breaker.service.ts:34-73 | on a clock that does not go back a guard is rejected exactly when the trip in force is younger than the timeout or has been probed with some successes, which are then fewer than the config asks for, so none when it asks for one |
| `CircuitBreaker.OpenWithoutGuards` | src/modules/gateways/circuit-breaker/circuit-breaker.service.ts:78-133 | no sequence of reports without a guard leads out of OPEN or moves its opening time, for any config |
| `CircuitBreaker.UnguardedNeverHalfOpen` | src/modules/gateways/circuit-breaker/circuit-breaker.service.ts:34-73 | a breaker that is never guarded is never HALF_OPEN |
| `CircuitBreaker.HalfOpenWedges` | src/modules/gateways/circuit-breaker/circuit-breaker.service.ts:62-100 | after one probe success with at most one probe configured the breaker is closed, and with more every guard is rejected at any later time |
| `CircuitBreaker.KeysAreIndependent` | src/modules/gateways/circuit-breaker/circuit-breaker.service.ts:163-204 | what the store holds about a (gateway, method) is determined by that key's own events |
| `CircuitBreaker.DefaultConfigInNumbers` | src/modules/gateways/circuit-breaker/circuit-breaker.service.ts:206-217 | without a stored config the fifth failure in a row trips, a probe is admitted 30 seconds later and not sooner, and its first success closes |
| `GatewayHealth.P95IsThePercentile` | src/modules/gateways/health/gateway-health.service.ts:58-66 | the recorded p95 is the least latency that more than 95% of the samples do not exceed |
| `GatewayHealth.RoundedQuotientIsNearest` | src/modules/gateways/health/gateway-health.service.ts:67 | the average latency is within half a millisecond of the exact quotient, halves going up |
| `GatewayHealth.BufferGroupsByKey` | src/modules/gateways/health/gateway-health.service.ts:36-44 | after any recording history a bucket holds exactly its key's samples, in order |
| `GatewayHealth.GatewayHealthService.Flush` | src/modules/gateways/health/gateway-health.service.ts:50-86 | one row per bucket is appended, made before the save, and the buffer is empty afterwards whatever was recorded meanwhile; a save that throws writes nothing and keeps the buffer with what was recorded meanwhile; rows keep success count <= total |
| `GatewayHealth.FlushAccountsForEverySample` | src/modules/gateways/health/gateway-health.service.ts:50-86 | an uninterrupted flush puts every recorded sample in exactly one row, one row per key that has samples, with the number of successes and samples, the 95th percentile and the rounded mean of exactly that key's samples |
| `GatewayHealth.TotalLatencyAdds` | src/modules/gateways/health/gateway-health.service.ts:67 | the sum the mean is taken of is the sum of the latencies |
| `GatewayHealth.WindowRateInRange` | src/modules/gateways/health/gateway-health.service.ts:93-114 | over rows written by flushes a window's success rate lies in [0, 1] and its p95 is the largest of its rows |
| `GatewayHealth.WindowRateIsSampleRate` | src/modules/gateways/health/gateway-health.service.ts:93-114 | a window's success rate is the share of successes among all the samples its rows were made of |
| `GatewayHealth.InWindowExactly` | src/modules/gateways/health/gateway-health.service.ts:93-105 | a window's rows are exactly those of its gateway and time, each as often as stored |
| `GatewayRouter.GatewayRouterService.SelectGateway` | src/modules/gateways/router/gateway-router.service.ts:33-178 | no gateway exactly when there is no score; otherwise the choice defined without sorting, and saved rows that list all scores in rank order, mark the chosen gateway and carry the right reason once |
| `GatewayRouter.GatewayRouterService.ScoreGateways` | src/modules/gateways/router/gateway-router.service.ts:59-135 | the loop scores exactly the listed gateways whose circuit is not open, in list order |
| `GatewayRouter.GatewayRouterService.PickSorted` | src/modules/gateways/router/gateway-router.service.ts:147-165 | picking from the sorted list gives the choice and the reason defined on the unsorted one |
| `GatewayRouter.SortTakesBest` | src/modules/gateways/router/gateway-router.service.ts:142 | the stable sort puts the first best score in front and sorts the others |
| `GatewayRouter.SortKeepsElements` | src/modules/gateways/router/gateway-router.service.ts:142 | the sort is a permutation |
| `GatewayRouter.ChosenBeatsTheRest` | src/modules/gateways/router/gateway-router.service.ts:147-165 | the choice is one of the scores and no other is better, except possibly one half-open leader within the threshold |
| `GatewayRouter.ChosenSkipsExactly` | src/modules/gateways/router/gateway-router.service.ts:147-165 | the leader is passed over if and only if it is half open and some other score is within the threshold, and the reason saved is the matching one |
| `GatewayRouter.ChoiceMeetsItsPurpose` | src/modules/gateways/router/gateway-router.service.ts:50-178 | there is no choice exactly when no config is enabled, fits method and currency and is not open; the chosen gateway is such a one and beats all others but possibly one half-open leader |
| `GatewayRouter.EligibleConfigs` | src/modules/gateways/repositories/gateway-config.repository.ts:24-34 | a config is listed exactly when it is in the table, enabled and supports method and currency |
| `GatewayRouter.EligibleInOrder` | src/modules/gateways/repositories/gateway-config.repository.ts:24-34 | the listing keeps order and number |
| `GatewayRouter.ScoredInOrder` | src/modules/gateways/router/gateway-router.service.ts:79-135 | so do the scores, with the open circuits left out |
| `GatewayRouter.OneRowIsSelected` | src/modules/gateways/router/gateway-router.service.ts:185-210 | gateways being distinct, exactly one saved row is marked selected and it carries the reason |
| `RoutingLaws.RaisedWinnerStays` | src/modules/gateways/router/gateway-router.service.ts:142-165 | raising only the scores of a closed winner keeps it the winner, also when it won over a half-open leader |
| `RoutingLaws.BetterRateKeepsTheWinner` | src/modules/gateways/router/gateway-router.service.ts:59-165 | a higher success rate of a chosen gateway whose circuit is closed keeps it chosen |
| `RoutingLaws.RepricingChangesNothing` | src/modules/gateways/router/gateway-router.service.ts:59-104 | putting every price, percentage plus fixed fee over 100000, through one positive affine map leaves every score as it was |
| `RoutingLaws.CheaperScoresHigher` | src/modules/gateways/router/gateway-router.service.ts:61-66 | all else equal the higher score is that of the lower price on the two columns |
| `RoutingLaws.CheapestIsChosen` | src/modules/gateways/router/gateway-router.service.ts:50-178 | with all circuits closed and equal metrics the chosen gateway is a cheapest one |
| `RoutingLaws.ScoreColumns` | src/modules/gateways/router/gateway-router.service.ts:89-121 | each saved score column, and the composite, in terms of the gateway's columns, its metrics or their defaults, and its circuit |
| `RoutingLaws.PriceBounds` | src/modules/gateways/router/gateway-router.service.ts:61-66 | the cost bounds are the lowest and highest listed price |
| `RoutingLaws.LatencyBounds` | src/modules/gateways/router/gateway-router.service.ts:69-74 | the latency bounds are the lowest and highest positive latency of listed gateways, or 0 and 1 |
| `RoutingLaws.HealthScoresHigher` | src/modules/gateways/circuit-breaker/circuit-breaker.service.ts:144-154 | a half-open circuit costs half the health weight |
| `RoutingLaws.TimeUnitChangesNothing` | src/modules/gateways/router/gateway-router.service.ts:68-98 | multiplying every latency by one positive factor leaves every score and the choice as they were, unless a scored gateway has a recorded 0 beside positive latencies that are all equal |
| `RoutingLaws.LatencyScoreScalesExactly` | src/modules/gateways/router/gateway-router.service.ts:68-98 | that exception is exact: a latency score is the same in another unit if and only if it does not apply |
| `RoutingLaws.LatencyScoreInRangeExactly` | src/modules/gateways/router/gateway-router.service.ts:69-98 | a latency score lies in [0, 1] if and only if the gateway has no recorded 0 beside a positive latency |
| `RoutingLaws.EveryCompositeInRange` | src/modules/gateways/router/gateway-router.service.ts:89-121 | over metrics windowed from flushed rows, weights nonnegative and summing to 1 and no gateway with only zero percentiles, every composite score lies in [0, 1] |
| `RoutingLaws.CompositeIsShare` | src/database/migrations/010-create-routing-config-and-seed.ts:18-25 | with nonnegative weights that sum to 1 and parts in [0, 1] the composite is in [0, 1] |
| `Sessions.AuthService.Refresh` | src/modules/auth/auth.service.ts:124-157 | store and result of a refresh in all five outcomes, with any writes of other calls after its read and before its mark |
| `Sessions.RefreshOutcomes` | src/modules/auth/auth.service.ts:124-157 | undisturbed, each of the five outcomes with what it leaves, down to the columns of the issued and the presented token |
| `Sessions.OtherCallsOutcomes` | src/modules/auth/auth.service.ts:159-187 | which token, if any, a logout or session revocation marks, and what a login adds |
| `Sessions.AuthService.RevokeSession` | src/modules/auth/auth.service.ts:178-187 | succeeds exactly for a token read as active and the requesting user's, which is inactive afterwards whatever others wrote in between; otherwise nothing changes |
| `Sessions.AuthService.Logout` | src/modules/auth/auth.service.ts:159-168 | a token read as open is marked over whatever others wrote in between; one read as revoked is left alone, with its link |
| `Sessions.CallKeepsChains` | src/modules/auth/auth.service.ts:94-187 | the chain invariant of every family, kept by every call that runs without another in between |
| `Sessions.FamiliesAreChains` | src/modules/users/repositories/refresh-token.repository.ts:24-42 | after any sequence of calls none of which overlap, following the replacement links from a family's first token lists exactly its tokens, once each, in issue order, and only the last can be unrevoked |
| `Sessions.ReuseIsFinal` | src/modules/auth/auth.service.ts:124-157 | after a reuse of a revoked token no later sequence of non-overlapping calls makes any token of that family active |
| `Sessions.OverlappingRefreshesFork` | src/modules/auth/auth.service.ts:129-154 | one order of two overlapping refreshes, in which both successors stay open |
| `SessionRaces.RaceStepKeepsInv` | src/modules/auth/auth.service.ts:94-187 | the invariant of tokens, links and pending marks under the separate reads and writes of any number of calls, kept by every step |
| `SessionRaces.ChainsExactly` | src/modules/users/repositories/refresh-token.repository.ts:24-42 | over every interleaving, whenever no refresh of a family is between its two writes, the family is a single chain if and only if no token of it was marked again after a refresh had marked it |
| `SessionRaces.TwoMarksChainExactly` | src/modules/auth/auth.service.ts:124-187 | when two calls mark one token and nothing else in its family is marked, the family is a chain if and only if the first mark is not a refresh's |
| `SessionRaces.RefreshedTwiceIsRemarked` | src/modules/auth/auth.service.ts:129-154 | two refreshes of one token break the chain in whatever order they write |
| `SessionRaces.LateLogoutErasesLink` | src/modules/auth/auth.service.ts:159-168 | a run in which a logout that read before a refresh and writes after it erases the link and leaves the new token open |
| `SessionRaces.ReuseIsFinalExactly` | src/modules/auth/auth.service.ts:124-157 | a reuse leaves its family dead in every continuation if and only if no refresh that had read a token of it unrevoked is still to issue |
| `Sessions.QuietRefresh` | src/modules/auth/auth.service.ts:124-157 | a refresh with no other call's writes in its gaps is the atomic one the chain theorems are about |
| `SessionRaces.SoloEnd` | src/modules/auth/auth.service.ts:159-168 | a logout of the machine of interleaved steps left alone is the atomic logout |
| `SessionRaces.SoloRefresh` | src/modules/auth/auth.service.ts:124-157 | a refresh of the machine of interleaved steps left alone is the atomic refresh |
| `Lockout.LoginService.Login` | src/modules/auth/auth.service.ts:41-89 | a disabled or locked account answers so whatever the password and is left as it is; otherwise the password decides, a success clears the counter and the fifth failure on locks for 15 minutes from the write |
| `Lockout.AdminActions` | src/modules/users/users.controller.ts:207-217 | activation and password reset clear counter and lock, and a disabled account admits no password |
| `Lockout.GuessesAreBounded` | src/modules/auth/auth.service.ts:57-84 | over any run of non-overlapping logins and admin actions at most 5 + floor(T / 15 min) failed checks fall within time T of the last success or reset |
| `Lockout.BoundIsMet` | src/modules/users/repositories/user.repository.ts:70-83 | a patient guesser reaches that bound exactly, so it is the best possible |
| `NairaAmounts.ErrorBelowHalf` | src/modules/gateways/adapters/flutterwave.adapter.ts:85 | the error of the division and the multiplication together stays below half a kobo for every amount below 2^51 |
| `NairaAmounts.RoundTripIsExact` | src/modules/gateways/adapters/flutterwave.adapter.ts:210 | every amount below 2^51 kobo comes back exactly, however the two operations round |
| `NairaAmounts.ValidateWebhookPayload` | src/modules/webhooks/webhook-processor.service.ts:450-471 | accepts exactly an absent, a zero or the expected amount |
| `NairaAmounts.OnlyTheExpectedAmountPasses` | src/modules/webhooks/webhook-processor.service.ts:500-503 | of all whole-kobo amounts charged, exactly the expected one and zero pass the check after conversion |

## Left out

- HTTP gateway adapters, signatures, JWT, argon2 and SHA-256: a gateway call is an arbitrary answer or exception, tokens and their hashes are opaque distinct values.
- `resolveTransition` and `extractTransactionId`: finite tables from gateway event names to target states and ids; the target state is a parameter.
- `extractAmount` beyond the naira conversion: field lookups in each gateway's JSON.
- Controllers, DTOs, guards, HTML pages, pagination, analytics queries, the PII sanitiser, notification and audit logging: easy or foreign code.
- Postgres isolation beyond the row lock, the advisory lock and the unique indexes: each repository call is one atomic step on a map.
- Process crashes, and writes that fail inside a catch handler: an attempt or a call always finishes its error path, except that `CutWalkResumes` and `CutWalkRecordsAmount` cut a walk anywhere. Of the other single writes that can fail, a refund's last two, a flush's save and a drain's first mark are modelled.
- Scheduler timers: when a drain, flush, purge or batch starts is arbitrary.
- `findDue`'s order and limit: any list of due rows may be drained. One attempt in flight per row is assumed, since `findDue` takes no lock.
- Replays of rows that are not in the DLQ: `requeueFromDLQ` does not check, so `WebhookQueue.WebhookQueueRepository.RequeueFromDLQ` allows them, but `WebhookDelivery` replays DLQ rows only.
- Overlap in `Sessions.FamiliesAreChains`, `Sessions.ReuseIsFinal` and `Sessions.CallKeepsChains`: refresh, logout and session revocation are atomic there; `SessionRaces` drops that and has the exact conditions.
- API captures inside `ConcurrentWalksAgree`: other actors may make any transition but do not write the captured amount.
- Purges of keys with a live holder inside the `Idempotency` protocol: excluded there, allowed in `PaymentInitiation`.
- Floating point in scoring: scores are real numbers, and the percentile index floor(0.95 n) is 19 n / 20 in integers. Naira amounts do model rounding.
- The 64-bit and string forms of BIGINT columns: amounts are integers. `refundPayment` adds to a column the driver may return as a string; `RefundRaces.RaceStepKeepsInv` shows that every refund that gets to its total had read 0, where adding and appending digits give the same number.
- `getNormalisationBounds`: not used by the router, which computes its own bounds.
- Transport of configs, routing weights and metrics from the database: they are arguments of `SelectGateway`, and each call sees one breaker state per gateway.
- `NairaAmounts.ErrorBelowHalf`: assumes results in the normal range of a double, which all amounts from one kobo up give.
- `RoutingLaws.CompositeIsShare`: takes nonnegative weights from the caller; the table only checks their sum.
