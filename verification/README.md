# Kushim: a model of the ledger-write protocol and its neighbours

Kushim keeps a ledger of portfolio operations in PostgreSQL. `kushim-api` writes
it, `kushim-worker` consumes a durable queue of refresh requests and rebuilds
read models, `kushim-market-data` fills the quote cache. This project models the
parts of the three services where processes interleave, where state is carried
over many calls, or where arithmetic is delicate, and proves what holds over
every run. Where the code does not keep a promise of its documentation, the
model follows the code: a concrete run shows the failure, and a theorem says
exactly when the promise holds.

## How the model is built

* `Ledger`, `Fingerprint`, `Tables` hold the rows, the pure rules of the service
  and one function from tables to tables per transaction. `LedgerStore` is the
  same set of transactions as methods that update the tables in place, with the
  constraints of the schema as class invariant; each is proved equal to its
  function and for what it means to its caller.
* `Protocol` is the transition system: 23 kinds of step, any number of API
  requests (create, correct, post, cancel, patch; each read, lookup, claim and
  commit of a request is a step of its own), asset changes, and any number of
  workers (claim, read the ledger, install the read model, complete, fail or
  retry, crash, sweep). The environment picks fresh identifiers, verdicts of
  checks that read no table, lock expiries, aborts, the order of steps, and
  whether a commit is heard: one that lands unheard changes the tables and is
  answered by a 500 or not at all. A step that is not enabled changes nothing,
  so every sequence of steps is a run.
* `WriteInvariant` and `WriteSteps` hold the inductive invariant. `ExactlyOnce`,
  `AllOrNothing`, `Responses`, `Lifecycle`, `RefreshQueue`, `Freshness` and
  `ReadModels` draw the theorems from it. `Schedules` and `Counterexamples` hold
  the runs that break a promise, `WorkerRuns` those of a worker that nothing
  disturbs.
* `Sent`, `Answers` and `Patches` state what is stored and what is answered on
  the bodies of the requests and the rows they meet, without the functions that
  build canonical operations and merge patches. `Payloads` sets the payload rules
  of the service against the constraints of the table, `StoredLedger` the stored
  rows against what the worker can replay, `Isolation` the requests of one user
  against the portfolios of another.
* `Replay`, `ReplayLaws`, `CostLaws` model the replay of posted operations into
  cash and positions; `Valuation`, `Rebuild`, `QuoteRaces` the valuation of
  positions, the persisted rows and their race with quote updates. `Rebuild`
  describes the read model of a book on its own, as `Tells`; `RebuildLaws` ties
  its summary to the ledger.
* `Calendar`, `BackfillRange`, `DateParser`, `Text`, `SymbolFilter`,
  `ProviderSymbols`, `JobRunner`, `JobCycles`, `ErrorNormalizer` are
  self-contained.

History fields (`origin`, `winner`, `candidate`, `asked`, `claimedOver`, `Made`)
record what happened and are read by no rule of the protocol. `stamped` is the
column `completed_at` of a refresh request, reduced to whether it is set.

## Where the code departs from its documentation

* `kushim-api/README.md` says no posting path bypasses the cross-currency guard,
  and that a cancelled operation is final. `post_operation` reads and validates
  a row, and a later UPDATE posts it whatever it has become: a cancel or a patch
  that commits in between gives a cancelled operation that is posted, or a
  posted foreign amount without a rate (`Counterexamples`). `FxSafetyOfRuns` and
  `LegalIffPending` give the exact conditions.
* It says a key reused with another normalised request is a 409. The fingerprint
  leaves out the `id_corrected_operation` of a creation body, so requests that
  differ in it alone are replayed (`OtherLinkIsReplayed`); `ReplayIffSameRequest`
  says which requests are replayed, exactly.
* A PATCH may change the link of a pending correction (`LinkBrokenIffPatched`).
* A posted write whose answer is a 500 or lost may have been committed. The
  README of the front end counts on the key then; `RetryAfterFailure` says what
  a retry is answered, and `AnswerLeavesTraceIff` which answers leave a trace.
* The payload rules of the service are laxer than the table: an operation with a
  field its type has no use for, such as a deposit with a quantity, passes them
  and ends in a 500 (`TableRulesIff`, `SuperfluousFieldIsNotRefused`).
* An adjustment without any content can be created, and no post accepts it until
  a patch gives it some (`StoredPayloadIff`).
* A stored quantity or rate has ten fractional digits and a stored time whole
  microseconds without its offset; `DetailsShownIff` says when the row shows
  exactly what was sent.
* "No lost refresh": `mark_completed` and `mark_failed_or_retry` select a row by
  its id alone, so a worker whose lock has expired can end a request that
  another worker has put back and a new operation was coalesced into
  (`LateWorkerLosesRefresh`). `CoverageOfRuns` gives the exact condition,
  `NoRefreshIsLost` a discipline that is enough, `CoveredIfPendingNeverEnds` one
  that a worker could check. A row put back after it was completed keeps its
  `completed_at`, so a post that began after that time is refused by the CHECK of
  the table as long as the row is pending (`EnqueueRefreshRequest`).
* A rebuild reads the ledger and writes the read model in two steps. Two workers
  on two requests of one portfolio can leave a stale read model with every
  request completed, even with perfect locks (`QuiescentCanBeStale`).
  `ReadModelsOfRuns` and `FreshIffShown` give the exact conditions. One worker
  process, which claims distinct rows and serves its batch one request after the
  other, keeps both promises (`OneWorkerKeepsPromises`).
* The comment on `weight_pct` says the weights of a portfolio sum to 100; three
  equal holdings give 99.9999 (`ThirdsDoNotSumToWhole`).
* The columns of the profit percentages are `numeric(10,4)`: a position that
  gained a million percent makes the database refuse the whole read model
  (`LargeProfitDoesNotFit`; `PercentFitsIff` is the exact bound).
* The error text of `parse_date` asks for YYYY-MM-DD, but signs and narrow fields
  are accepted (`LooseFormIsAccepted`).
* The error normaliser drops the other headers of a JSON 400
  (`OthersAreKept`).
* A replayed `transfer_in` of an asset with a cash amount adds that amount to
  cash and to the position's cost; `ProfitIsTotalGain` accounts for it.

## Model

| member | source | states |
|---|---|---|
| LedgerRepository.LedgerStore.EnqueueRefreshRequest | kushim-api/src/repositories/portfolio_refresh_requests.rs:19-62 | returns the portfolio's pending request when there is one, with its attempts kept, and a fresh pending one otherwise; refused exactly when the pending row carries a completion time the transaction does not precede; one pending row per portfolio stays |
| LedgerRepository.LedgerStore.CreateWithRefreshAndIdempotency | kushim-api/src/repositories/portfolio_operations.rs:208-272 | claim, insert, enqueue and finalise are one change of the tables that keeps every constraint; a lost race or a database error leaves every table as it was, and an error means that no pair of identifiers would have made the row acceptable, or that the pending request is stamped |
| LedgerRepository.LedgerStore.SetStatusPostedWithRefresh | kushim-api/src/repositories/portfolio_operations.rs:288-352 | posts any row that is not posted yet, whatever else its status, together with its enqueue, and keeps every constraint; refuses exactly a missing row, a posted row and a stamped pending request, without a trace |
| LedgerRepository.LedgerStore.CancelOperation | kushim-api/src/repositories/portfolio_operations.rs:541-587 | succeeds exactly when the row is not in the posted ledger of its portfolio; every portfolio's posted ledger and every committed row stay, and the constraints hold |
| LedgerRepository.LedgerStore.UpdateOperation | kushim-api/src/repositories/portfolio_operations.rs:456-539 | succeeds exactly when the row is not posted and the table with the merged row satisfies every constraint; the posted ledger of every portfolio stays |
| LedgerRepository.LedgerStore.ClaimRequest | kushim-worker/src/repositories/refresh_requests.rs:68-136 | the claimed row covers every operation its portfolio has posted and takes no further one; a claim forgets nothing; the attempts the worker remembers are one more than before and within the maximum |
| LedgerRepository.LedgerStore.MarkCompleted | kushim-worker/src/repositories/refresh_requests.rs:139-157 | ends the row by its id alone: in a covered state it forgets an operation exactly when the row is pending again and one waits for it |
| LedgerRepository.LedgerStore.MarkFailedOrRetry | kushim-worker/src/repositories/refresh_requests.rs:163-205 | a retry makes the row pending unless another row of the portfolio is, and forgets nothing; a failure at the maximum forgets an operation exactly when a completion would |
| LedgerRepository.LedgerStore.MarkExhaustedFailed | kushim-worker/src/repositories/refresh_requests.rs:31-55 | the sweep fails exactly the pending rows and expired processing rows at the maximum, and counts them |
| LedgerRepository.LedgerStore.ReplaceReadModels | kushim-worker/src/repositories/read_model_rebuild.rs:136-149 | other portfolios show what they showed; completed requests stay shown exactly when the snapshot has all that those of this portfolio were claimed over |
| Ledger.StoredDecimal | infra/postgres/init/001_init.sql:353-508 | a stored decimal is positive, below the limit of its column, has ten fractional digits and lies within half of the last one of what was sent; it is refused exactly when it is no number, rounds to nothing or overflows, and absent exactly when none was sent |
| Ledger.DetailsShownIff | infra/postgres/init/001_init.sql:353-378 | the stored row shows the quantities and times that were sent exactly when the quantities have at most ten fractional digits and the times whole microseconds |
| WriteSteps.RunKeepsInv | kushim-api/src/services/portfolio_operations.rs:375-614 | every step of every process keeps the write invariant, and nothing committed is ever taken back |
| ExactlyOnce.ExactlyOnceWrites | kushim-api/src/services/portfolio_operations.rs:375-486 | for every run, with commits that land unheard, and every (user, key): at most one 201, at most one ledger row, all successes carry the same operation and refresh request and are backed by one record, whose writer got the 201 or, unheard, a 500 or nothing; no replay ever fails to find its rows |
| ExactlyOnce.KeyBoundToOneRequest | kushim-api/README.md:890-903 | all clients that ever succeed under one key asked for the same write, each as it canonicalised its own request |
| Sent.KeyBoundToOneBody | kushim-api/README.md:890-903 | all clients that succeed under one key sent the same body up to the defaults and the link of a creation, decimals compared as texts, and stood for the same currency when they were read |
| ExactlyOnce.ReplayIffSameRequest | kushim-api/src/services/portfolio_operations.rs:720-790 | under a committed key a request is replayed exactly when it asks for the same write up to the link of a creation body, and is a 409 otherwise; no table changes |
| Sent.RetryAnsweredByBody | kushim-api/src/services/portfolio_operations.rs:720-790 | a new request under a committed key is a 404 when the operation it corrects is missing, a 400 when it asks for a cancelled one, a replay when its body and currency are those of the request that wrote the record, and a 409 otherwise; nothing is written |
| ExactlyOnce.RetryIsReplayed | kushim-api/src/services/portfolio_operations.rs:375-430 | a retry runs canonicalisation, lookup and replay, without any drift-sensitive check, to the recorded identifiers |
| ExactlyOnce.ReplayStableUnderDrift | kushim-api/src/http/portfolio_operations.rs:7176-7374 | after any further run (asset changes, posts, patches, workers, other requests) an exact retry is a replay of the original identifiers and writes nothing |
| ExactlyOnce.RetryAfterFailure | kushim-app/README.md:219-221 | after a 500 or a lost answer, the same request under the same key is fresh when no record is committed; otherwise a 200 with the recorded identifiers exactly when the record is of the same request, always so when the failed client wrote it, and a 409 else; the retry writes nothing by then |
| ExactlyOnce.OtherKeysAreUnaffected | kushim-api/README.md:896 | a step of a request under one (user, key), or without a key, changes neither the record of another nor which clients wait for it |
| Fingerprints.FingerprintDecides | kushim-api/src/services/operation_fingerprint.rs:26-98 | two requests have the same fingerprint exactly when user, kind, corrected operation of the endpoint and every canonical field but the body's link agree |
| Answers.FreshWriteAnswered | kushim-api/src/services/portfolio_operations.rs:375-486 | what a write under a fresh key is answered before its transaction, by its body: 404, 400, 409, 400 or 422 in that order of faults, and it goes on exactly when there is none; no table changes |
| Answers.SwitchedAsset | kushim-api/src/services/portfolio_operations.rs:1522-1600 | activating or deactivating an asset changes what that asset is for and no other; a write that names an inactive one does not go on |
| Answers.PostAnswered | kushim-api/src/services/portfolio_operations.rs:1146-1218 | a post that reads its row is a 404, a 409 unless the row is pending, a 400 for its payload or its assets, a 422 for foreign cash without a rate, and goes on otherwise |
| Answers.CancelAnswered | kushim-api/src/services/portfolio_operations.rs:987-1036 | a cancel that reads its row is a 404, a 409 for a posted row, a success that writes nothing for a cancelled one, and goes on for a pending one |
| Answers.CommitsAnswered | kushim-api/src/services/portfolio_operations.rs:1146-1218 | at its commit a post or a cancel that was let through is refused by the database exactly when the row has been posted; otherwise it changes the status of that row alone, and a post leaves its request pending |
| Patches.PatchAnswered | kushim-api/src/services/portfolio_operations.rs:837-985 | a PATCH that reads its row is a 404, a 409 unless the row is pending, a 400 unless the row it would store has its decimals, payload and assets in order, and goes on otherwise |
| Patches.PatchStoresWhatWasSent | kushim-api/src/services/portfolio_operations.rs:837-985 | whatever commits in between, the stored row is in each field what the PATCH sent, or what it read where it sent nothing, with the portfolio, status and origin of the row at the commit; it is refused exactly when that row has been posted or the new one breaks a constraint |
| Patches.PatchedOnce | kushim-api/src/services/portfolio_operations.rs:837-985 | what a PATCH sends and what it read fix the stored row |
| Payloads.RowsStayValid | infra/postgres/init/001_init.sql:353-508 | in every reachable state every row meets every constraint of its table |
| Payloads.StoredRowsFit | infra/postgres/init/001_init.sql:353-512 | in every reachable state stored decimals are positive, have ten fractional digits and fit their columns, no two rows share an external reference, and a link names another row and is an adjustment's |
| Payloads.TableRulesIff | kushim-api/src/services/portfolio_operations.rs:1621-1736 | the table accepts the columns of an operation exactly when the payload rules of the service do and no field is given that its type has no use for |
| Payloads.SuperfluousFieldIsNotRefused | kushim-api/src/services/portfolio_operations.rs:1621-1736 | a deposit with a quantity passes the payload rules and is refused by the table |
| Payloads.StoredPayloadIff | kushim-api/src/services/portfolio_operations.rs:1762-1787 | in every reachable state a stored row passes the payload rules of a post, unless it is an adjustment whose every field is absent, zero or the empty object |
| StoredLedger.StoredLedgerReplaysIff | kushim-worker/src/domain/portfolio_state.rs:224-560 | in every reachable state any ledger of stored rows replays exactly when no row takes more of an asset than the rows before it brought |
| Schedules.OtherLinkIsReplayed | kushim-api/src/services/operation_fingerprint.rs:26-98 | in every reachable state, a committed creation retried with any other link in its body is replayed |
| Responses.OneCreatedResponse | kushim-api/src/http/portfolio_operations.rs:490-516 | over every run, one client per key at most sees a 201, and all successes under the key show the same envelope |
| Responses.RetryResponse | kushim-api/src/http/portfolio_operations.rs:7176-7374 | a retry after any drift shows the same operation (the same row, if it was posted) and the same refresh request, of which only the status is live |
| AllOrNothing.WritesAreAllOrNothing | kushim-api/src/repositories/portfolio_operations.rs:208-272 | in every reachable state records and rows are in bijection; a posted creation's record names a refresh request of its portfolio, a pending one's names none; a correction's original is still posted |
| AllOrNothing.PostedRowIsTheRequest | kushim-api/src/services/portfolio_operations.rs:628-715 | a row written as posted is, in every later state and field by field, what its request asked for with the defaults filled in and its decimals and times as the database stores them; a correction is an adjustment of its original, in the original's currency unless it names one |
| Sent.CommitWritesWhatWasSent | kushim-api/src/services/portfolio_operations.rs:628-715 | a commit that lands, pending or posted, adds one row that is, field by field, what the body sent: omitted fields stand for pending, zero, the empty object and the currency of the corrected operation; decimals and times are as the database stores them |
| Sent.SentUntilUpdated | kushim-api/src/services/portfolio_operations.rs:628-715 | after any further run that row is still what was sent, until a post, a cancel or a patch of it lands; in every field but the status, until a patch of it lands |
| Sent.RowChangesByUpdatesOnly | kushim-api/src/repositories/portfolio_operations.rs:288-587 | a step changes a row only when it is an update of it that lands: a post sets the status to posted, a cancel to cancelled, a patch keeps it |
| AllOrNothing.AnswerLeavesTraceIff | kushim-api/README.md:901-903 | a step that answers a client changes a table exactly when it is a commit that lands: with a success when heard, with a 500 or no answer when not; a refusal, a conflict and a replay never do |
| AllOrNothing.WhoWrote | kushim-api/src/repositories/portfolio_operations.rs:257-272 | in every reachable state the client that wrote a record asked for it and got the 201 with its identifiers, or a 500 or no answer |
| Isolation.OnlyOwnersWrite | kushim-api/src/services/portfolio_operations.rs:375-486 | in every run a row is added or changed only by a request whose user owns the portfolio of the row |
| Isolation.RowsBelongToTheirSenders | kushim-api/src/services/portfolio_operations.rs:375-486 | in every reachable state the user who sent a row owns its portfolio |
| AllOrNothing.LoserSeesCommitOrAbort | kushim-api/src/repositories/portfolio_operation_idempotency.rs:136-178 | the losing side waits for an uncommitted claim, may claim after its rollback, and re-reads its record after its commit |
| AllOrNothing.QueueStaysBounded | kushim-worker/src/config.rs:66-83 | at most one pending request per portfolio and never more attempts than configured, in every reachable state |
| AllOrNothing.CommitCoalesces | kushim-api/src/repositories/portfolio_refresh_requests.rs:19-62 | a commit that posts leaves exactly one pending request for its portfolio: the one that was pending, or one new row |
| Lifecycle.PostedRowsAreImmutable | infra/postgres/init/001_init.sql:11-24 | a row that is posted at some point of a run is the same row for ever; rows never vanish, change portfolio or return to pending |
| Lifecycle.LegalIffPending | kushim-api/src/services/portfolio_operations.rs:1146-1218 | a step makes an illegal status change exactly when it is a post whose row is no longer pending at the commit |
| Lifecycle.FxSafetyOfRuns | kushim-api/src/services/portfolio_operations.rs:1868-1898 | a run ends with every posted amount in the base currency or with a positive rate exactly when every post found, at its commit, a row that passes the rule; direct creations and corrections never break it |
| Lifecycle.UndisturbedRunsKeepPromises | kushim-api/README.md:943-946 | when no cancel or patch commits on a row between the read and the commit of its post, all status changes are legal and the currency rule holds throughout |
| Schedules.RefusalKeepsKeyFree | kushim-api/README.md:901-903 | in every state in which no other transaction holds the key, a posted foreign amount without a rate is a 422 that leaves no trace, and a corrected request under the same key is then a 201 |
| Schedules.CancelTwice | kushim-api/src/services/portfolio_operations.rs:987-1036 | in every state, a pending operation can be cancelled twice: both answers are successes and the second writes nothing |
| Lifecycle.PostedCorrectionKeepsLink | kushim-api/src/services/portfolio_operations.rs:496-614 | a correction posted at creation points, in every later state, to a posted operation of its portfolio |
| Lifecycle.LinkBrokenIffPatched | kushim-api/src/services/portfolio_operations.rs:837-985 | a step breaks the link of a correction exactly when it commits a patch of that row with another link |
| RefreshQueue.NoRefreshIsLost | kushim-worker/README.md:35-47 | when locks expire on dead workers only, every posted operation is covered, at every point, by a request that is pending or was last claimed after it was posted |
| RefreshQueue.EndingLosesIffWaiting | kushim-worker/src/repositories/refresh_requests.rs:139-205 | ending a request loses a refresh exactly when it is pending again and an operation waits for it |
| RefreshQueue.CoverageOfRuns | kushim-worker/src/repositories/refresh_requests.rs:31-205 | for every run, with no assumption on locks: operations stay covered throughout exactly when no worker and no sweep ends such a request |
| RefreshQueue.CoveredIfPendingNeverEnds | kushim-worker/src/repositories/refresh_requests.rs:139-205 | if no worker ends a row whose status is pending, operations stay covered throughout |
| RefreshQueue.OneWorkerIsDisciplined | kushim-worker/src/jobs/process_portfolio_refresh_requests.rs:41-148 | one worker process, which claims distinct rows and serves its batch in order, meets both disciplines whatever its lock timeout |
| Freshness.QuiescenceImpliesFreshness | kushim-worker/src/jobs/process_portfolio_refresh_requests.rs:41-148 | with dead-lock expiry and one rebuild of a portfolio at a time, a portfolio whose requests are all completed shows exactly its posted operations |
| Freshness.OneWorkerKeepsPromises | kushim-worker/README.md:35-47 | with one worker process no operation is forgotten and a portfolio whose requests are all completed shows exactly its posted operations |
| WorkerRuns.RefreshRuns | kushim-worker/src/jobs/process_portfolio_refresh_requests.rs:41-148 | a request that may be claimed can be refreshed: it ends completed with one more attempt, its portfolio shows exactly its posted operations, and nothing else changes |
| WorkerRuns.TriesEnd | kushim-worker/src/repositories/refresh_requests.rs:163-205 | a request whose refresh keeps failing is pending again after each attempt below the maximum, and failed at the maximum |
| WorkerRuns.SweepFails | kushim-worker/src/repositories/refresh_requests.rs:31-55 | the sweep fails a pending or processing request at the maximum of attempts and changes no other |
| ReadModels.ReadModelsNeverInvent | kushim-worker/src/repositories/read_model_rebuild.rs:49-93 | for every schedule of any number of workers, a read model shows posted operations of its portfolio only |
| ReadModels.ReadModelsOfRuns | kushim-worker/src/jobs/rebuild_current_read_models.rs:41-101 | completed requests stay reflected in their read models throughout a run exactly when no worker installs, or completes over, an older ledger |
| ReadModels.FreshIffShown | kushim-worker/src/jobs/rebuild_current_read_models.rs:41-101 | in a covered state a portfolio with all requests completed is fresh exactly when these requests are all reflected |
| Schedules.StalePostRevivesCancelled | kushim-api/src/services/portfolio_operations.rs:1146-1218 | in every state, any postable pending operation can be cancelled with a success and then become posted |
| Schedules.StalePostBreaksFxRule | kushim-api/src/services/portfolio_operations.rs:1146-1218 | in every state, any postable pending operation with cash and no rate can be posted in a foreign currency without a rate |
| Schedules.PatchRemovesLink | kushim-api/src/services/portfolio_operations.rs:837-985 | in every state, a PATCH can remove the link of any pending correction |
| Counterexamples.CancelledCanBecomePosted | kushim-api/src/services/portfolio_operations.rs:1146-1218 | a run from the empty database with an illegal status change |
| Counterexamples.ForeignCashCanBePostedWithoutRate | kushim-api/README.md:943-946 | a run from the empty database that ends with a posted foreign amount without a rate |
| Counterexamples.LateWorkerLosesRefresh | kushim-worker/src/repositories/refresh_requests.rs:139-157 | a run to a state in which an operation was coalesced into a pending request that a late worker, whose claim is older than another, still holds; its completion leaves the operation covered by nothing |
| Counterexamples.QuiescentCanBeStale | kushim-worker/src/jobs/rebuild_current_read_models.rs:41-101 | a run whose locks expire on dead workers only and that still ends quiescent and stale |
| Counterexamples.CorrectionCanLoseItsLink | kushim-api/src/services/portfolio_operations.rs:837-985 | a run after which a row of the correction endpoint has lost its link |
| Replay.PortfolioState.ApplyOperation | kushim-worker/src/domain/portfolio_state.rs:224-325 | one replayed operation changes cash, capital, positions and the estimated flag as the specification says, and fails exactly when it does |
| Replay.PortfolioState.ReducePosition | kushim-worker/src/domain/portfolio_state.rs:527-560 | refuses exactly missing or too small positions, and returns the released cost |
| Replay.ReplayAll | kushim-worker/src/calculation/portfolio_replay.rs:12-23 | the replay loop computes the book of the ledger and stops at the first operation that cannot be applied |
| ReplayLaws.ReplayIffNeverShort | kushim-worker/src/domain/portfolio_state.rs:224-560 | a ledger replays exactly when every operation has its fields and no move takes more than earlier moves brought; the book then holds inflows minus outflows of every asset, with no negative quantity or cost |
| ReplayLaws.ConvertedIsWorth | kushim-worker/src/domain/portfolio_state.rs:567-600 | the amount of an operation in the base currency is its cash in that currency, the nearest whole number to cash times rate with a rate, ties away from zero, and nothing without one; there is one such amount |
| ReplayLaws.CashIsInLessOut | kushim-worker/src/domain/portfolio_state.rs:224-325 | the cash of a ledger is what came in less what went out, in the base currency; the book is estimated exactly when a rate is missing or there is a split or spin-off |
| ReplayLaws.CashIsExactUpToRounding | kushim-worker/src/domain/portfolio_state.rs:224-325 | the cash of a ledger differs from the exact sum of amounts and of amounts times rates by at most half a minor unit for each conversion |
| CostLaws.SellingOutReleasesAll | kushim-worker/src/domain/portfolio_state.rs:527-560 | a position sold out in any number of parts releases exactly its cost: rounding loses nothing |
| CostLaws.AverageCostKept | kushim-worker/src/domain/portfolio_state.rs:705-718 | a partial sale keeps the average cost up to half a minor unit |
| CostLaws.ApplyMovesCost | kushim-worker/src/domain/portfolio_state.rs:224-325 | cost is conserved by every operation; a symbol change carries it over to the last unit |
| CostLaws.ProfitIsTotalGain | kushim-worker/src/domain/portfolio_state.rs:224-325 | over any ledger, cash plus cost is the invested capital plus the gains of its operations |
| CostLaws.NeutralLedgerMakesNoProfit | kushim-worker/src/domain/portfolio_state.rs:224-325 | deposits, buys, splits, spin-offs and symbol changes make no profit, in any number and order |
| Valuation.WeightRows | kushim-worker/src/domain/portfolio_state.rs:468-483 | the weight loop gives each row its weight and changes nothing else |
| Valuation.WeightInRange | infra/postgres/init/001_init.sql:733-734 | every weight lies between 0 and 100 percent |
| Valuation.WeightsSumToWholeIff | kushim-worker/src/domain/portfolio_state.rs:179-187 | the weights sum to 100 exactly when the roundings cancel, and are off by at most half of the last digit per weighted holding |
| Valuation.DivisibleValuesSumToWhole | kushim-worker/src/domain/portfolio_state.rs:179-187 | weights of values that divide the total to four digits sum to 100 |
| Valuation.OneHoldingIsWhole | kushim-worker/src/domain/portfolio_state.rs:179-187 | a single valued holding weighs 100 |
| Valuation.TwoHoldingsAreWholeIff | kushim-worker/src/domain/portfolio_state.rs:179-187 | two holdings weigh 100 together exactly unless both weights are ties |
| Valuation.ThirdsDoNotSumToWhole | kushim-worker/src/domain/portfolio_state.rs:179-187 | three equal holdings weigh 99.9999 percent |
| Valuation.PercentFitsIff | infra/postgres/init/001_init.sql:700 | a profit fits its column exactly when it is below a million percent of the cost, to half of the last digit |
| Valuation.LargeProfitDoesNotFit | infra/postgres/init/001_init.sql:700 | a position bought for one minor unit and worth 10002 has no row the column accepts |
| Valuation.TableRowsDecode | kushim-api/src/repositories/portfolio_read_models.rs:144-203 | every row the table's constraints accept is decoded, and shown as it is unless it predates the provenance columns; the reason code tells the four kinds of row apart |
| Valuation.StatusMeaning | kushim-api/src/domain/portfolio_read_model.rs:88-100 | from the two counts: empty, unavailable, complete and partial exactly for no open row, no valued row, all open rows valued, and some but not all |
| Rebuild.Finalize | kushim-worker/src/domain/portfolio_state.rs:327-515 | returns a read model exactly when it is the one that tells what the book and the quotes say, row by row and in the summary, its amounts fit 64 bits and its total is not negative |
| Rebuild.FinalizedIff | kushim-worker/src/domain/portfolio_state.rs:327-515 | the description fixes the read model: quantity, cost, unit cost, value, profit, percentage, weight, provenance and estimate of each open position, and cash, total, invested capital, profit, percentage, activity and estimate of the portfolio |
| RebuildLaws.SummaryTellsTheLedger | kushim-worker/src/domain/portfolio_state.rs:327-515 | from the ledger to the summary: its cash and invested capital; as profit the gains of its operations and what the holdings are worth above their cost; active exactly with cash or an open position; estimated exactly with an estimated row or an operation applied on an assumption |
| RebuildLaws.PercentHasSign | kushim-worker/src/domain/portfolio_state.rs:429-433 | a percentage has the sign of what it measures |
| Rebuild.RebuiltRowsAreSound | kushim-worker/src/domain/portfolio_state.rs:327-515 | from any ledger the database accepts to the API: rows that meet the CHECK constraints of the table and that the API decodes, an available row worth its shown price times its quantity, any other its cost, and the total cash plus the shown values |
| Rebuild.ExactlyOpenPositionsAreShown | kushim-worker/src/domain/portfolio_state.rs:327-346 | an asset has a row exactly when it has an open position |
| QuoteRaces.NoTornValuation | kushim-api/src/http/portfolio_read_models.rs:1555-1748 | over every interleaving of quote updates and rebuilds, a shown holding comes from one rebuild: price, currency, provider and times, wherever shown, are those of the one quote it read, and the value is that price times the quantity or else the cost |
| QuoteRaces.ShownUntilInstalled | kushim-api/src/domain/portfolio_read_model.rs:149-155 | until the next install for the portfolio, no quote update changes what is shown |
| Calendar.NextDayIncrements | kushim-worker/src/config.rs:246-264 | a step to the next day adds one to the day number; only the last representable day has none |
| Calendar.OrderIsDayNumber | kushim-worker/src/config.rs:239-244 | the order of dates is the order of day numbers |
| Calendar.WalkIffWholeDays | kushim-market-data/src/config.rs:229-239 | the subtraction counts exactly the days one walks |
| BackfillRange.ValidateJobSpecificConfig | kushim-worker/src/config.rs:207-267 | the day-stepping loop accepts and refuses exactly as the subtraction does, ends, and never reaches the end of the calendar |
| BackfillRange.RangeCheckCountsDays | kushim-market-data/src/config.rs:229-265 | both checks accept exactly the ranges whose last day is at most 365 steps away |
| BackfillRange.RefusalMeaning | kushim-market-data/src/config.rs:229-265 | which refusal a range gets: a missing end, the first one first; a last day from which one can walk to the first; a walk of 366 steps or more |
| BackfillRange.OneYearRange | kushim-worker/src/config.rs:246-264 | a range from a day to the same day of the next year is accepted exactly when the span holds no leap day |
| DateParser.ParsePrint | kushim-market-data/src/config.rs:401-421 | parsing the printed form gives back every valid date of the years 0 to 9999 |
| DateParser.AcceptedIff | kushim-market-data/src/config.rs:401-421 | accepted are exactly three unsigned numerals joined by minus signs whose values form a valid date; no accepted year is negative |
| DateParser.ErrorMeaning | kushim-market-data/src/config.rs:401-421 | which error a refused date gets, by its pieces |
| DateParser.NumeralMeaning | kushim-market-data/src/config.rs:401-421 | a numeral is one or more digits after at most one plus sign, and has the value of its digits |
| DateParser.ParsePrintParse | kushim-market-data/src/config.rs:401-421 | parse, print, parse is parse |
| DateParser.CanonicalIff | kushim-market-data/src/config.rs:401-421 | an accepted text is the printed form exactly when it has ten characters, minus signs in their places and no plus sign |
| DateParser.LooseFormIsAccepted | kushim-market-data/src/config.rs:401-421 | a signed, narrow text is accepted |
| SymbolFilter.ParseAllowlist | kushim-market-data/src/symbol_filter.rs:10-27 | the loop computes the allowlist of its text |
| SymbolFilter.AllowlistIff | kushim-market-data/src/symbol_filter.rs:10-27 | the allowlist is the one list of the non-blank canonical symbols, once each, in order of first occurrence; none exactly when every piece is blank |
| SymbolFilter.CanonicalMeaning | kushim-market-data/src/symbol_filter.rs:10-27 | a canonical symbol is the text without its outer whitespace, ASCII letters raised, and nothing else changed |
| SymbolFilter.LookupMeaning | kushim-market-data/src/symbol_filter.rs:75-87 | an asset is looked up by its symbol, and by its ticker only when the symbol is absent or blank |
| SymbolFilter.JoinThenParse | kushim-market-data/src/symbol_filter.rs:10-27 | a parsed allowlist joined with commas parses to itself |
| SymbolFilter.SelectionPartitions | kushim-market-data/src/symbol_filter.rs:44-87 | selected assets are exactly the allowed ones in order; every allowed symbol is either missing or the lookup symbol of a selected asset, never both |
| SymbolFilter.NoAllowlistSelectsAll | kushim-market-data/src/symbol_filter.rs:44-54 | an allowlist whose every piece is blank selects every asset and misses none |
| ProviderSymbols.OptionalProviderSymbolMap | kushim-market-data/src/config.rs:369-399 | the loop computes the last-wins fold of its entries or the first error |
| ProviderSymbols.BadEntryIff | kushim-market-data/src/config.rs:376-393 | an entry is refused exactly when it is not blank and lacks an equals sign or has a blank side of the first one |
| ProviderSymbols.EntryMeaning | kushim-market-data/src/config.rs:376-393 | an accepted entry gives the trimmed, raised text before its first equals sign the trimmed text after it; a refused one lacks the sign, or else a side |
| ProviderSymbols.FoldFacts | kushim-market-data/src/config.rs:369-399 | parsing fails exactly when an entry is refused, with the first such entry; otherwise every key has the value of its last entry and there are no other keys |
| ProviderSymbols.ParsePrintedMap | kushim-market-data/src/config.rs:369-399 | printing a map of clean symbols in any order and parsing gives the map back |
| ProviderSymbols.AcceptedIsClean | kushim-market-data/src/config.rs:369-399 | every accepted map is of clean symbols |
| JobRunner.RunLoop | kushim-market-data/src/runner.rs:53-75 | the loop with its two selects does, event by event, what the state machine does |
| JobCycles.LoopRunsCycles | kushim-market-data/src/runner.rs:53-75 | until it is cancelled the loop has started one job for each complete cycle of polls, and one more as soon as it is polled again: that job runs, has failed and ended the loop, or is followed by a sleep that has not elapsed |
| JobCycles.SleepLeftIff | kushim-market-data/src/runner.rs:66-71 | a sleep is left exactly at the poll that finds its time elapsed, after its first poll when the interval is positive |
| JobCycles.EveryRunIsCycles | kushim-market-data/src/runner.rs:53-75 | any polls can be read as cycles |
| JobCycles.LoopKeepsRunning | kushim-market-data/src/runner.rs:53-75 | with a positive interval there is, for every n, a run that starts and finishes n jobs and goes on |
| JobRunner.IdleStartsNothing | kushim-market-data/src/runner.rs:28-33 | idle mode starts no job and leaves exactly when polled after a cancellation |
| JobRunner.OnceRunsExactlyOne | kushim-market-data/src/runner.rs:34-45 | once mode starts one job and returns the job's own result, whatever the cancellations |
| JobRunner.LoopJobsAreSequential | kushim-worker/src/worker/runner.rs:47-70 | jobs never overlap, the loop ends at the first error, and a job is dropped only by the cancellation that ends the loop |
| JobRunner.AtMostOneLateStartIff | kushim-market-data/src/runner.rs:53-75 | at most one job starts after a cancellation, for every choice among ready branches, exactly when the interval is positive |
| JobRunner.ThreePollsAfterCancel | kushim-market-data/src/runner.rs:53-75 | with a positive interval the loop has left three polls after a cancellation, with an error exactly when a job failed |
| ErrorNormalizer.NormalizeIsIdempotent | kushim-api/src/http/mod.rs:157-240 | normalising twice is normalising once |
| ErrorNormalizer.NoPlaintextErrorLeft | kushim-api/src/http/mod.rs:157-240 | afterwards no 400, 415 or 422 is plain text |
| ErrorNormalizer.PlaintextBecomesOneJsonError | kushim-api/src/http/mod.rs:200-240 | a readable plain-text error becomes exactly one of five JSON errors: its text gives evidence of that fault and of none before it; the status is 415 exactly for the content type and 400 otherwise |
| ErrorNormalizer.LegacyAndUnreadable | kushim-api/src/http/mod.rs:157-240 | an error that cannot be read becomes a 500 internal_error, and a JSON 400 with the legacy content-type code a 415 invalid_content_type |
| ErrorNormalizer.OthersAreKept | kushim-api/src/http/mod.rs:250-283 | every other response keeps status, body and content type, and comes out unchanged exactly when it is not a JSON 400 with further headers |

## Left out

- SQL text, connection pools, HTTP routing, JSON decoding and tokens. A transaction is one step, with a claim that is visible as a wait while it is uncommitted.
- The shape of the metadata, the catalogue of currencies and the parsing of times: a verdict the environment picks (`payloadOk`), so every theorem holds for both answers. Bodies are taken after the service has trimmed their texts, turned blank ones into absent ones and made the currency code canonical. The lengths of text columns and the format of a currency are covered by the abort of a transaction.
- Fingerprints.FingerprintDecides: the rendering of the fingerprint and the jsonb round trip of the stored document are taken as identity; a metadata number that jsonb normalises to another one could make an exact retry a conflict.
- The comparison of clocks behind the CHECK on `completed_at`: a commit in the protocol may succeed or be refused by it (an abort); the repository method takes the comparison as a parameter.
- Ledger.DetailsShownIff: that the driver cuts an instant to microseconds towards the epoch is assumed.
- The row and the asset statuses that one validation reads are read in one step; no theorem rests on the asset verdict.
- The clock: a lock may expire at any time; the theorems that need more say so (`DeadLocksOnly`).
- Retry delays and batch order: any eligible request may be claimed next.
- Deletion of portfolios and users, and changes of a base currency: the API does neither. Asset status is the only foreign row that drifts.
- Read models inside the write protocol are the set of operations they were built from; what is computed from them is modelled in `Replay`, `Valuation` and `Rebuild`.
- Freshness.QuiescenceImpliesFreshness: assumes at least one attempt is configured, which the cast of a very large setting to 32 bits could break, and the two disciplines it names; `Counterexamples` shows they are needed.
- RefreshQueue.NoRefreshIsLost: assumes at least one configured attempt, as above.
- BackfillRange.ValidateJobSpecificConfig: requires dates that exist, as the date type of the configuration guarantees.
- Replay.PortfolioState.ApplyOperation: amounts are unbounded integers; an overflow of 128-bit intermediates is not modelled. The narrowing to 64 bits is.
- Rebuild.Finalize: decimal texts are read as scaled integers. The way one position becomes a row is a function passed to the row loop.
- Snapshots, backfill runs and the scheduled rebuild of all portfolios.
- The summary endpoint reads the summary row and the counts in two queries, so its status can belong to a later rebuild than its amounts; only holdings are covered by `NoTornValuation`.
- Deserialisation of the body in `normalize_plaintext_error_responses`: a body carries the `error.code` a JSON parser finds in it.
- Acyclicity of corrections: creations and patches may set the link freely.
- Currency lists, enum conversions, pagination, audit views, health checks, logging, the front end and the Finnhub client.
