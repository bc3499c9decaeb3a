# POI Hub: verified models

POI Hub runs several protocols over one database: a leased job queue, versioned product and stock
intents, mirrors of remote lists, and a few small caching and framing protocols. This project
models them in Dafny and proves what they keep while workers crash, retry, race and reorder work.

`dafny verify dfyconfig.toml` checks everything.

## How the models are built

- Code that changes stored rows step by step is a class with the rows as fields
  (`OperationService`, `ProductService`, `StockService`, `PoiMirror`, `MappingService`,
  `CandidateService`, `AccountingService`, `MockGateway`, `VoucherService`, `TokenProvider`). Each
  method is proved equal to a function of the old state, and what that function does is stated
  separately, column by column and case by case.
- Where several workers or callers interleave, a `...Runs` module describes a transition system.
  Its steps are the database statements or the places where the code waits, they reuse the same
  functions, and steps that nothing interrupts are proved to compose to the methods. The results hold for every run, of any length.
- Clocks, random jitter, gateway replies and network faults are parameters of the steps and may
  take any value.

| files | subject |
|---|---|
| `Operations`, `OperationRuns`, `BatchRetry` | the leased queue: rows, every run, batch retry |
| `Redaction`, `UniqueInsert`, `Enqueue` | idempotent enqueue and callback ingestion under races |
| `Products`, `ProductRuns`, `ProductOverlap`, `ProductQueue` | product intents: every run, what overlap breaks, under the queue |
| `ProductHandlers`, `QueueHandlers` | product handlers that wait for the gateway, alone and under the lease |
| `Stock`, `StockRuns`, `StockHandlers` | stock intents: every run, handlers that wait for the gateway |
| `PoiSync`, `PoiMirrorProofs`, `PoiResync`, `Mappings`, `Candidates` | POI mirror, second syncs, store mappings, match candidates |
| `Pagination`, `Accounting`, `Reconciliation`, `AccountingHandler` | accounting mirror, reconciliation, and the handler of both |
| `Vouchers`, `VoucherRuns` | voucher consumption over a lossy network |
| `Framing`, `SlotLoop`, `Tokens`, `TokenRuns` | callback framing, worker slots, token caches |
| `Wrappers`, `Text` | shared datatypes and string operations |

## Where the code does less than its design suggests

Each of these is stated by lemmas below, with the exact condition.

- Commands and stock requests read a row and commit later. A commit writes the columns its request
  changed and sets the version to the one read plus one; nothing compares the stored row with the
  one read, and the query for unfinished operations is not repeated. Overlapping requests can
  therefore share a target version or take the version back. `ProductOverlap`, `ProductQueue` and
  `StockRuns` prove for each result that depends on this exactly which commits break it, and that
  commits which find the version their requests had read (what an optimistic lock would enforce)
  break none of them. The lifecycle results hold whatever commands overlap, with each handler run
  taken as one step; the next two points say when it may be.
- A product handler loads the product, waits for the gateway and stores the changed columns later;
  nothing fences that write. A listing that returns after a deletion is stored over it
  (`ProductHandlers.LateListingUndeletes`). `ProductHandlers` proves that a run in which every handler
  finds the row as it loaded it is one with atomic handlers, and which waiting handlers can undo a
  deletion or replace a remote id. Under the queue every handler does find the row so, as long as
  commits find the version their requests had read, nothing is retried by hand and no operation is
  taken over from a worker that is still at it (`QueueHandlers.LeasesKeepHandlersUndisturbed`).
- A stock update that waits can reach the gateway after a newer one, even though no two requests
  overlap (`StockHandlers.LateUpdateUnsettles`); leases do not help, since the two belong to different
  operations. `StockHandlers.SettledStockStaysExactlyWhen` names the calls that unsettle a SKU.
- A product that starts with its creation can never be listed, delisted or updated without an audit:
  callbacks leave the desired state behind, and no command leads to `approved`. Such commands are
  accepted in some run exactly if the product starts out wanting to be approved, listed or delisted,
  as the seeded one does (`ProductRuns.ListingNeedsAListableStart`).
- Since only changed columns are written, a stale stock request for the stock it had read leaves a
  version whose operation and row disagree; `StockRuns.Clashes` counts this as a second stock.
- `attempt_count` is not bounded by `max_attempts`: a claim exceeds the budget exactly when it takes
  over an expired lease of an operation that has used it up
  (`OperationRuns.ClaimsExceedBudgetExactlyByTakeOver`).
- A creation answered with an unknown status strands the product until a callback arrives: the
  failure is committed on the session that already holds the new remote id. A creation can be
  finished later exactly if the reply that stored the remote id had a known status
  (`ProductRuns.CreationIsDoneExactlyAfterAKnownStatus`).
- A batch retry clears the lease column and a single one does not; they agree exactly when no reset
  row has a lease set (`BatchRetry.BatchIsFoldOfSingles`), which the row invariant guarantees.
- A remote POI id that itself starts with `audit:` can lose its row during the same sync; in a list
  without repeated ids exactly when a later record has the same normalised name and address
  (`PoiMirrorProofs.EveryIdHasARowExactlyWhen`).
- Synchronizing the same POI list again can therefore add or change rows; in a list without repeated
  ids exactly when three records with `audit:` ids share a normalised name and address, or an
  ordinary one follows the last of those that do (`PoiResync.SecondSyncChangesOnlyTimesExactlyWhen`).
- Bills without an id are told apart by five fields joined with `|`, which determines the fields
  exactly when none of them holds a `|` (`Accounting.IdentityDeterminesFields`).
- A voucher consumed at another store counts as success when the gateway answers, and as failure
  when the reply is lost and the voucher is looked up (`VoucherRuns.NextAttemptSucceeds`).
- AppIDs are compared with a function that takes only ASCII text, so a message framed with a
  non-ASCII AppID is never accepted (`Framing.DecryptionInvertsEncryption`).
- An access token granted for a minute or less is never served from the cache
  (`TokenRuns.ShortLivedTokensAreNotShared`).

## Model

| member | source | states |
|---|---|---|
| Operations.BackoffGrows | backend/poi_admin/operations/service.py:49-51 | a later attempt waits strictly longer than an earlier one under any two jitter draws, until both wait the cap of 3600 s |
| Operations.BackoffCapsAtEleven | backend/poi_admin/operations/service.py:49-51 | waits are positive and at most 3600 s, and are 3600 s exactly from the eleventh attempt on |
| Operations.BackoffDoubles | backend/poi_admin/operations/service.py:49-51 | the first wait is 5 s and the jitter, and until the cap each attempt doubles the part without the jitter |
| Operations.TotalWaitBound | backend/poi_admin/operations/service.py:49-51 | the first k retry waits together are at most 5 * (2^k - 1) + k seconds |
| Operations.DueRowsAreClaimable | backend/poi_admin/operations/service.py:178-191 | a row that satisfies the row invariant is claimable exactly from the time its columns name: its next attempt while it waits, the end of its lease while it runs; it has such a time unless it is final |
| Operations.OldestExists | backend/poi_admin/operations/service.py:185-191 | the candidate query, ordered by creation time, finds a row whenever one is claimable |
| Operations.NewRowIsDue | backend/poi_admin/operations/service.py:106-131 | a new row holds its request, is due at once and has used no attempt |
| Operations.ClaimIsRecorded | backend/poi_admin/operations/service.py:204-238 | a claim gives a claimable row to one worker, keeps it from others until exactly the end of the lease, uses one attempt and changes no other column or row |
| Operations.RenewalIsRecorded | backend/poi_admin/operations/service.py:250-273 | a heartbeat of the owner makes the row due exactly at the new end of the lease; any other heartbeat changes nothing |
| Operations.SuccessIsRecorded | backend/poi_admin/operations/service.py:275-304 | the success of the owner, and of no one else, ends the operation for good with its time and its redacted response |
| Operations.FailureIsRecorded | backend/poi_admin/operations/service.py:306-345 | the failure of the owner stores code and cut message; the row is due again exactly after the backoff of its attempt if the failure is retryable and attempts are left, and otherwise never |
| Operations.RetryIsRecorded | backend/poi_admin/operations/service.py:347-362 | which retries are refused; an accepted one makes the row due at once, with all attempts and no error, owner or completion, and keeps request, budget and response |
| Operations.RequestErrorIs | backend/poi_admin/operations/service.py:72-90 | a foreign connection is refused before a blank key |
| Operations.SafeRequestIs | backend/poi_admin/operations/service.py:72-105 | a request is stored as it is but for its secrets |
| Operations.OperationService.Enqueue | backend/poi_admin/operations/service.py:72-162 | without interference: argument errors leave the table alone; a known key yields its row or a conflict, decided by equality after redaction; an unknown key yields one new queued row; keys stay unique |
| Operations.OperationService.SelectCandidate | backend/poi_admin/operations/service.py:178-200 | the oldest claimable row, and none only if nothing is claimable |
| Operations.OperationService.GuardedClaim | backend/poi_admin/operations/service.py:204-238 | the update takes the row exactly when it is still claimable, and changes no other row |
| Operations.OperationService.Claim | backend/poi_admin/operations/service.py:174-248 | without interference the oldest claimable row is taken: running, owned, leased, with one more attempt |
| Operations.OperationService.RenewLease | backend/poi_admin/operations/service.py:250-273 | the deadline moves exactly when the caller still owns the running row, and the result says so |
| Operations.OperationService.MarkSucceeded | backend/poi_admin/operations/service.py:275-304 | only the owner of the running row completes it; the response is stored redacted |
| Operations.OperationService.MarkFailed | backend/poi_admin/operations/service.py:306-345 | only the owner fails the row; whether it waits for a retry is decided on the caller's copy of the counters |
| Operations.OperationService.ManualRetry | backend/poi_admin/operations/service.py:347-362 | a failed or waiting row of the tenant is due at once with a fresh budget and no trace of its failure, whatever it waited for; any other is refused, with the error that applies, and nothing changes |
| Operations.OperationService.ManualRetryMany | backend/poi_admin/operations/service.py:364-405 | the new table and the report are those of one pass over the ids without repetitions |
| OperationRuns.RowFrame | backend/poi_admin/operations/service.py:174-362 | every step leaves a row alone except an accepted claim, completion, heartbeat or reset of it |
| OperationRuns.ClockReadingsAre | backend/poi_admin/operations/service.py:174-362 | statements may use any clock reading up to the present and none from the future; anyone may crash at any time |
| OperationRuns.WorkersMoveOn | backend/poi_admin/operations/service.py:174-345 | how a worker moves from a candidate over the row it took to the copy it reads back and to a completion; a crashed worker does nothing any more, and no step affects another worker |
| OperationRuns.RunIsMonotone | backend/poi_admin/operations/service.py:72-362 | in every run clocks move forward and rows are never removed |
| OperationRuns.NoRowIsStranded | backend/poi_admin/operations/service.py:174-362 | in every reachable state: running iff a lease is set, and then an owner; completion time iff succeeded or failed; claimable exactly from a time read off the row |
| OperationRuns.DueRowCanBeTaken | backend/poi_admin/operations/service.py:174-248 | a due row and an idle worker: three steps in which the worker takes it |
| OperationRuns.UnfinishedWorkIsRecoverable | backend/poi_admin/operations/service.py:174-248 | whatever crashed before, every run extends by three steps to one in which an idle worker owns a given unfinished operation |
| OperationRuns.SuccessIsFinal | backend/poi_admin/operations/service.py:275-362 | a succeeded row, response included, is the same in every later state |
| OperationRuns.OwnerIsLatestClaimer | backend/poi_admin/operations/service.py:204-238 | a running row is owned by the worker of its latest claim and was not completed since |
| OperationRuns.FencedCompletion | backend/poi_admin/operations/service.py:275-345 | an accepted completion comes from the worker of the latest claim, and is the first one since |
| OperationRuns.OneCompletionPerClaim | backend/poi_admin/operations/service.py:275-345 | two accepted completions of one operation have a claim between them |
| OperationRuns.StaleWorkerIsInert | backend/poi_admin/operations/service.py:250-345 | completions and heartbeats of a worker that lost its row change no row |
| OperationRuns.RunningRowStep | backend/poi_admin/operations/service.py:250-273 | a running row that is not completed keeps running under the deadline the step recorded, or the one it had |
| OperationRuns.LeaseProvenance | backend/poi_admin/operations/service.py:204-273 | from a claim until a completion the row runs under the last deadline recorded for it |
| OperationRuns.ClaimsAreSeparatedByExpiry | backend/poi_admin/operations/service.py:174-345 | between two claims without a completion in between, the last deadline recorded for the first one had passed by the clock reading the second one began with |
| OperationRuns.FailureUsesTheRowsAttempts | backend/poi_admin/operations/service.py:306-345 | the worker's copy used by an accepted failure equals the row's counter, so the row waits exactly when the failure is retryable and the row's budget is not used up, for the backoff of that attempt |
| OperationRuns.AttemptsCountClaims | backend/poi_admin/operations/service.py:204-238 | since the last reset the counter grew by exactly the number of claims, take-overs included |
| OperationRuns.FreshClaimsWithinBudget | backend/poi_admin/operations/service.py:210-238 | between resets an operation is claimed from a waiting status at most max(1, max_attempts) times |
| OperationRuns.ClaimsExceedBudgetExactlyByTakeOver | backend/poi_admin/operations/service.py:210-238 | in every run a claim takes the counter past the budget exactly when it takes over an expired lease of an operation whose budget is used up |
| OperationRuns.AttemptsCanExceedBudget | backend/poi_admin/operations/service.py:222-233 | such claims occur: a run in which an operation with a budget of one is on its second attempt |
| BatchRetry.DedupKeepsFirstOccurrences | backend/poi_admin/operations/service.py:364-372 | the ids without repetitions: the same ids, each once, in the order of their first occurrences |
| BatchRetry.BatchIsRecorded | backend/poi_admin/operations/service.py:364-405 | after a batch every failed or waiting row of the tenant it names is due at once, reset and without a lease, and every other row is as it was |
| BatchRetry.BatchIsFoldOfSingles | backend/poi_admin/operations/service.py:347-405 | the batch leaves the rows that single retries in turn leave exactly when no row it resets has a lease set |
| BatchRetry.BatchIsFoldOfSinglesWhenRowsAreOk | backend/poi_admin/operations/service.py:347-405 | on every table that satisfies the row invariant batch and single retries agree |
| BatchRetry.BatchReportsEachOnce | backend/poi_admin/operations/service.py:364-405 | one result per distinct id, equal to what a single retry of it at its turn says |
| Redaction.RedactFixesExactlyCleanDocuments | backend/poi_admin/connections/crypto.py:59-80 | redaction leaves a document alone exactly when all its sensitive fields hold the marker already |
| Redaction.SensitiveNamesAre | backend/poi_admin/connections/crypto.py:59-66 | which field names are secret, upper and lower case and dashes aside |
| Redaction.RedactIs | backend/poi_admin/connections/crypto.py:68-80 | secret fields hold the marker, other fields and list items are redacted in turn, and anything else is kept |
| Redaction.RedactIsIdempotent | backend/poi_admin/connections/crypto.py:68-80 | redacting twice is redacting once |
| Redaction.RedactIdentifiesExactlySecrets | backend/poi_admin/connections/crypto.py:68-80 | two documents become equal by redaction exactly when they differ only below sensitive keys |
| UniqueInsert.RowsAreFixed | backend/poi_admin/operations/service.py:106-146 | in every race a row, once inserted, keeps its contents |
| UniqueInsert.CallersGoOn | backend/poi_admin/operations/service.py:106-146 | nobody is stuck: a look-up is answered exactly if some row has the key, and an insert is answered with that row or with a new one |
| UniqueInsert.RunsGoOn | backend/poi_admin/operations/service.py:90-146 | races start with an empty table and nobody served, and go on by any such step |
| UniqueInsert.ExactlyOneCallerCreates | backend/poi_admin/operations/service.py:90-146 | in every interleaving all answered callers of one key got one row, inserted by exactly one of them with its own value |
| UniqueInsert.RaceLinearises | backend/poi_admin/operations/service.py:90-146 | every interleaving equals running the answered calls atomically in the order of their answers: same table, same answers |
| Enqueue.RacingEnqueuesAgree | backend/poi_admin/operations/service.py:72-162 | one call per key decides; every other call gets its row exactly when the requests agree up to secrets, and a conflict otherwise |
| Enqueue.ExactlyOneDeliveryIsNew | backend/poi_admin/webhooks/service.py:70-115 | of all concurrent deliveries of one payload exactly one is reported as new, and all name one row |
| Products.ProductService.RequireCommand | backend/poi_admin/local_life/products.py:233-246 | a command is accepted exactly for a created product without an unfinished operation that is settled in a status its table lists, and an update only at the version its caller saw; the first failed check names the error |
| Products.AcceptanceIs | backend/poi_admin/local_life/products.py:47-68 | which commands a settled product takes, by its status; and which check names the error otherwise |
| Products.KnownKeyIsAnswered | backend/poi_admin/local_life/products.py:399-426 | a known key returns its operation exactly to the same command with the same body |
| Products.CommandIsRecorded | backend/poi_admin/local_life/products.py:233-263 | an accepted update wants another audit, an audit-free one the status it finds, an action its target; that, the content and the next version are stored and recorded together, and nothing else changes |
| Products.AcceptedCommandReachesGateway | backend/poi_admin/local_life/products.py:233-263 | the first handler run of an accepted command makes exactly its one call, with the content it stored, whatever the reply |
| Products.ProductService.Submit | backend/poi_admin/local_life/products.py:204-359 | without interference an accepted new key stores content, the desired state its command wants, the next version and the intent together; a refused or known one changes nothing |
| Products.ProductService.RunUpdate | backend/poi_admin/local_life/products.py:654-683 | what an update handler calls, stores and reports for every product, intent and gateway reply |
| Products.ProductService.RunAction | backend/poi_admin/local_life/products.py:685-734 | the same for actions, including a deletion of a product the gateway no longer knows; a call that failed otherwise stores nothing |
| Products.ProductService.RunCreate | backend/poi_admin/local_life/products.py:551-618 | the same for creation up to the linking of its SKUs |
| Products.HandlerOutcome | backend/poi_admin/local_life/products.py:551-734 | at most one gateway call, version and content untouched; a rejected handler changes nothing, but for the creation with an unknown status; a finished command is settled at its target, a finished creation linked |
| Products.ValidationIs | backend/poi_admin/local_life/products.py:516-549 | an intent is valid exactly at its version and target, from its source or at its target; and which check names the error otherwise |
| Products.CallsAre | backend/poi_admin/local_life/products.py:654-708 | when an update or action calls the gateway, with what, and how its handler ends without a call |
| Products.CallsSucceedExactlyWhen | backend/poi_admin/local_life/products.py:654-734 | a call leads to success exactly if the reply has the target status or the call was a deletion that returned or met an unknown product; then the target is stored, and otherwise nothing |
| Products.CreationSucceedsExactlyWhen | backend/poi_admin/local_life/products.py:551-596 | a creation calls the gateway exactly while no remote id is stored, and is done exactly if the reply has valid SKU ids, a known status and free ids; then the id and the status of the reply are stored |
| ProductRuns.HandlerEffect | backend/poi_admin/local_life/products.py:516-549 | in every run a handler moves the product to its intent's target or nowhere, and only an intent that validates calls the gateway or finishes |
| ProductRuns.UninterruptedCommandIs | backend/poi_admin/local_life/products.py:204-359 | reading and committing without interference is the service's command; given up in between it leaves no trace |
| ProductRuns.EventsAre | backend/poi_admin/local_life/products.py:204-359 | what a commit with a taken key, a handler run and a callback do |
| ProductRuns.StaleCommandIsInert | backend/poi_admin/local_life/products.py:516-549 | whatever overlaps, a command whose version is no longer the product's fails without a gateway call or a change, however often it is run |
| ProductRuns.IntentsStay | backend/poi_admin/local_life/products.py:246-263 | recorded intents are never changed or removed |
| ProductRuns.GatewayCallsComeFromACurrentIntent | backend/poi_admin/local_life/products.py:551-734 | creation is called only while no remote id is stored; every other call comes from a current intent, carries out its command and sends the row's content |
| ProductRuns.CreatedOnce | backend/poi_admin/local_life/products.py:551-618 | a stored remote id never changes, nor whether the SKUs are linked, so the product is never created again |
| ProductRuns.UncreatedProduct | backend/poi_admin/local_life/products.py:126-202 | before its creation is answered a product has no commands and wants to be under review |
| ProductRuns.CreationIsDoneExactlyAfterAKnownStatus | backend/poi_admin/local_life/products.py:551-618 | from the reply that first stored a remote id on, a creation that is run again is done exactly if that reply had a known status |
| ProductRuns.UnknownStatusStrandsCreation | backend/poi_admin/local_life/products.py:551-618 | a creation answered with an unknown status leaves a product on which every retry fails and every command is refused until a callback |
| ProductRuns.StatusMovesAlongTheTables | backend/poi_admin/local_life/products.py:47-68 | after creation, and from every settled product, with overlapping commands and each handler run atomic, every step but a callback keeps the local status or moves it along the transition tables |
| ProductRuns.DeletedIsFinal | backend/poi_admin/local_life/products.py:685-734 | without callbacks deleted is final, whatever is retried and whatever commands overlap, with each handler run atomic |
| ProductRuns.ListedReachesDeletedThroughDelisted | backend/poi_admin/local_life/products.py:47-68 | every callback-free run that leaves listed for deleted passes through delisted, with overlapping commands and each handler run atomic |
| ProductRuns.ListedProductsCanBeDeleted | backend/poi_admin/local_life/products.py:47-68 | such runs exist: a listed product, delisted and then deleted |
| ProductRuns.ActionsAreCarriedOut | backend/poi_admin/local_life/products.py:311-359 | from every settled product each action its table allows can be submitted and carried out, and leaves it settled at the action's target |
| ProductRuns.ListingNeedsAListableStart | backend/poi_admin/local_life/products.py:233-246 | with callbacks and overlap, listing, delisting and audit-free updates are accepted in some run of a product if and only if it wants to be approved, listed or delisted at the start; a product that starts with its creation does not |
| ProductRuns.SpentExactlyUntilRevived | backend/poi_admin/local_life/products.py:516-549 | an operation that reached its target, or does not validate, stays so exactly until an event stores its version again over its desired state while the product is back at its source |
| ProductRuns.FinishedCommandsActOnce | backend/poi_admin/local_life/products.py:654-734 | after a run that finished, later runs of the same operation call the gateway exactly if it is an audit-free update that validates, and change nothing, as long as nothing revives it |
| ProductOverlap.TargetVersionsAreDistinctExactlyWhenChecked | backend/poi_admin/local_life/products.py:227-263 | without callbacks, target versions are distinct exactly when every commit found the version its request had read |
| ProductOverlap.CommitDecidesValidation | backend/poi_admin/local_life/products.py:516-549 | after a commit validation is the version check exactly if the desired state it leaves and the stored status suit its own operation and all that recorded the same version |
| ProductOverlap.CommitDecidesChain | backend/poi_admin/local_life/products.py:233-263 | a commit keeps the chain exactly if its request read the target of every operation of the version it read, and every operation of the version after its own read its target |
| ProductOverlap.CommitDecidesNewest | backend/poi_admin/local_life/products.py:233-263 | after a commit the newest command is current and on its way exactly if the commit does not take the version further back than the newest one and suits an operation of that version |
| ProductOverlap.CommitDecidesContent | backend/poi_admin/local_life/products.py:227-246 | after a commit current updates find the content they recorded exactly if the merged content is what its own operation, and every update of the same version, recorded |
| ProductOverlap.HoldsExactlyWhenCommitsPass | backend/poi_admin/local_life/products.py:204-359 | over whole callback-free runs each of the four results holds in all states if and only if every commit passes its test |
| ProductOverlap.CheckedCommitsPass | backend/poi_admin/local_life/products.py:204-359 | commits that find the version their requests had read pass all four tests |
| ProductOverlap.CheckedRunsKeepAll | backend/poi_admin/local_life/products.py:204-359 | so all four results hold in callback-free runs of such commits |
| ProductOverlap.CheckedRunsWithCallbacks | backend/poi_admin/local_life/products.py:516-549 | with callbacks too, such runs keep versions distinct, at most one current command, validation the version check, and recorded content |
| ProductOverlap.UpdatesSendTheirOwnContent | backend/poi_admin/local_life/products.py:654-683 | an update's call carries the content recorded with it in every callback-free run whose commits pass the test for content |
| ProductOverlap.CheckedRunsReviveNothing | backend/poi_admin/local_life/products.py:516-549 | commits that find their version revive no spent operation |
| ProductOverlap.OverlappingCommandsFailValidation | backend/poi_admin/local_life/products.py:227-263 | two requests that read one product and lead to different targets: the second commit fails the test, both operations are current, and the first one is rejected |
| ProductHandlers.UndisturbedHandlersAreAtomic | backend/poi_admin/local_life/products.py:551-734 | a handler that finds the row as it loaded it, but for the content, stores and reports what an atomic run at that moment does |
| ProductHandlers.LandedIs | backend/poi_admin/local_life/products.py:654-734 | a handler stores each column it changed on the row it loaded, and no other |
| ProductHandlers.UninterruptedHandlerIs | backend/poi_admin/local_life/products.py:551-734 | loading and storing without interference is an atomic run; a stopped handler leaves no trace |
| ProductHandlers.UndisturbedRunsAreAtomic | backend/poi_admin/local_life/products.py:551-734 | a run whose handlers all find the row so is, to the product, a run with atomic handlers, so all results about those apply |
| ProductHandlers.HandlersStore | backend/poi_admin/local_life/products.py:516-734 | however long it waited, a handler changes the status only, and only to its target after it validated on the way there, unless it is a creation that loaded no remote id |
| ProductHandlers.StatusMovesAlongTheTablesUnlessOverwritten | backend/poi_admin/local_life/products.py:47-68 | with handlers that wait, too, the status moves along the tables, as long as none lands over another status than it loaded and no such creation lands |
| ProductHandlers.DeletedIsFinalExactlyWhen | backend/poi_admin/local_life/products.py:654-734 | from any state on, a deleted product stays deleted in every callback-free continuation if and only if no waiting handler validated on its way to another status, and no waiting creation loaded no remote id |
| ProductHandlers.LateListingUndeletes | backend/poi_admin/local_life/products.py:685-734 | such handlers occur: a listing that returns after the deletion is stored over it |
| ProductHandlers.RemoteIdStaysExactlyWhen | backend/poi_admin/local_life/products.py:551-596 | from any state on, a stored remote id is never replaced if and only if no creation is waiting that loaded none |
| ProductQueue.SucceededCommandIsSettled | backend/poi_admin/operations/worker.py:100-189 | under the queue, with crashes, take-overs, retries and overlapping commands, each handler run atomic: when an operation that nothing revived has succeeded, the product is settled where it wanted it, at its version, exactly if its intent validates; and exactly which commands are accepted next |
| ProductQueue.UninterruptedCommandIs | backend/poi_admin/local_life/products.py:233-263 | reading, querying the queue and committing without interference is the service's command, with the queue's answer, and stores the queue row with it |
| ProductQueue.WorkIs | backend/poi_admin/operations/worker.py:100-189 | a worker runs the handler of the operation it holds, keeps its result until it reports or crashes, and reports success only for a handler that is done |
| ProductQueue.ClearedIs | backend/poi_admin/local_life/products.py:370-387 | only a command that has found no unfinished operation since it read commits, and committing or giving up ends it |
| ProductQueue.CheckedCommandsSettle | backend/poi_admin/operations/worker.py:100-189 | when commits find the version their requests had read, and each handler run is atomic, the product is where its newest command wanted it once that succeeded |
| ProductQueue.QueueRunsAreProductRuns | backend/poi_admin/operations/worker.py:100-189 | the product part of every run under the queue is a callback-free run of the product protocol with the same commits |
| ProductQueue.OneOperationAtATime | backend/poi_admin/local_life/products.py:370-387 | at most one operation of a product is unfinished at all times if and only if no commit and no manual retry finds another unfinished one |
| ProductQueue.CheckedCommandsRunAlone | backend/poi_admin/local_life/products.py:370-387 | at most one operation is unfinished when commits find the version their requests had read and nothing is retried by hand |
| ProductQueue.OverlappingCommandsBothEnqueue | backend/poi_admin/local_life/products.py:370-387 | two commands that both queried an idle queue do both enqueue |
| QueueHandlers.UndisturbedRunsAreAtomic | backend/poi_admin/operations/worker.py:100-189 | under the queue, a run whose handlers all find the row as they loaded it is a run with atomic handlers |
| QueueHandlers.UninterruptedHandlerIs | backend/poi_admin/operations/worker.py:100-189 | loading and storing without interference is the atomic step of the worker |
| QueueHandlers.WaitingIs | backend/poi_admin/operations/worker.py:100-189 | while a handler waits its worker cannot report success, and only its failure or crash cuts the handler off |
| QueueHandlers.NoCommitWhileWorking | backend/poi_admin/local_life/products.py:370-387 | while a handler waits, no command that finds the version it read commits |
| QueueHandlers.OneHandlerAtATime | backend/poi_admin/operations/worker.py:100-189 | two handlers of one product never wait at the same time |
| QueueHandlers.LeasesKeepHandlersUndisturbed | backend/poi_admin/operations/worker.py:100-189 | every handler finds the product as it loaded it, however long it waited, as long as commits find their versions, nothing is retried by hand and no operation is taken over from a worker that is still at it |
| QueueHandlers.LeasedCommandsSettle | backend/poi_admin/operations/worker.py:100-189 | in such runs the product is where its newest command wanted it once that succeeded, though handlers wait |
| Stock.LinksFollowMerchantIds | backend/poi_admin/local_life/products.py:560-577 | when the reply names every SKU once by merchant id, its order does not matter; remote ids are non-empty and distinct |
| Stock.UnnamedSkusFollowPositions | backend/poi_admin/local_life/products.py:560-577 | SKUs the reply does not name get the id at their position; linking fails exactly when the numbers differ or an id is empty or repeated |
| Stock.StockService.UpdateStock | backend/poi_admin/local_life/products.py:265-309 | without interference a new key is accepted exactly for a SKU of a linked, undeleted product at the version its caller saw, the first failed check naming the error, and stores desired stock, version and operation; a known one returns its operation or a conflict; nothing else changes |
| Stock.AcceptanceIs | backend/poi_admin/local_life/products.py:284-292 | the same as a law of the request alone: a stale version is refused |
| Stock.KnownKeyIsAnswered | backend/poi_admin/local_life/products.py:272-282 | a known key returns its operation exactly to a request for the same stock of the same SKU |
| Stock.UpdateIsRecorded | backend/poi_admin/local_life/products.py:294-309 | an accepted request wants its stock at the next version and records an operation for both; no other SKU and no applied stock changes |
| Stock.AcceptedRequestIsCarriedOut | backend/poi_admin/local_life/products.py:284-309 | the handler of an accepted request, answered before any other commit, leaves local and remote stock at what was asked for |
| Stock.StockService.EnqueueInitialStocks | backend/poi_admin/local_life/products.py:597-613 | one operation per SKU under its derived key, existing ones reused; it fails exactly when some derived key holds another operation |
| Stock.StockService.RunSetStock | backend/poi_admin/local_life/products.py:620-652 | a superseded operation changes nothing; an answered one stores its stock; a lost reply changes only the remote stock |
| Stock.HandlerStores | backend/poi_admin/local_life/products.py:620-652 | exactly which operations and replies change the remote and the local stock, and that no other SKU changes |
| Stock.InitialStockIsRecorded | backend/poi_admin/local_life/products.py:597-613 | a free derived key records the stock and version read; a taken one is kept, and fails the handler exactly if it holds anything else |
| StockRuns.SupersededOperationIsInert | backend/poi_admin/local_life/products.py:620-652 | a superseded stock operation changes nothing, locally or remotely |
| StockRuns.UninterruptedRequestIs | backend/poi_admin/local_life/products.py:265-309 | reading and committing without interference is the service's request; given up in between it leaves no trace |
| StockRuns.EventsAre | backend/poi_admin/local_life/products.py:597-652 | what the creation handler, other commands, stock handlers and a commit with a taken key do, and when |
| StockRuns.OperationsAgreeExactlyWhenUnclashed | backend/poi_admin/local_life/products.py:265-309 | with overlapping requests, operations of one version carry one stock and current ones the desired stock, in all states of a run, if and only if no commit gave its version a second stock |
| StockRuns.StockConvergesExactlyWhen | backend/poi_admin/local_life/products.py:620-652 | from any reachable state, under any reordering and repetition of atomic handler runs, applying an operation of the current version settles local and remote stock until the next commit for the SKU if and only if only the desired stock can be applied for that version |
| StockRuns.UnclashedStockConverges | backend/poi_admin/local_life/products.py:620-652 | with atomic handler runs, stock converges in every run in which no commit gave its version a second stock |
| StockRuns.CheckedCommitsDoNotClash | backend/poi_admin/local_life/products.py:284-309 | commits that find the version their requests had read never give a version a second stock |
| StockRuns.CreationRerunsNeverConflict | backend/poi_admin/local_life/products.py:597-613 | in runs without such a clash, re-run creation handlers, however old their reads, meet no conflict and reuse their operations, if no one else takes a derived key |
| StockRuns.CreationRerunsNeverConflictExactlyWhen | backend/poi_admin/local_life/products.py:597-613 | re-runs with any rows read at a version do not conflict with each other if and only if the row held one desired stock at that version |
| StockRuns.CreationConflictsExactlyOnForeignKeys | backend/poi_admin/local_life/products.py:597-613 | in runs without a clash the handler fails on a SKU exactly when the derived key names anything but a stock operation for that SKU and version |
| StockRuns.TakenKeyConflicts | backend/poi_admin/local_life/products.py:597-613 | a derived key taken by another command makes the handler fail |
| StockRuns.OverlappingRequestsDiverge | backend/poi_admin/local_life/products.py:265-309 | two requests that read one row and both commit: whichever operation is applied last, stock is as desired exactly when that operation carries the desired stock |
| StockHandlers.UndisturbedRunsAreAtomic | backend/poi_admin/local_life/products.py:620-652 | a run in which every update arrives while its operation is current, and every answer is stored while it still is and no other stock was stored over it, is a run with atomic handlers |
| StockHandlers.UninterruptedCallIs | backend/poi_admin/local_life/products.py:636-652 | calling, arriving and storing without interference is an atomic run, answered, with its answer lost or refused; each call arrives and is answered at most once |
| StockHandlers.SettledStockStaysExactlyWhen | backend/poi_admin/local_life/products.py:636-652 | from any state on, with handlers that wait and updates that arrive late, settled stock stays settled until the next commit for the SKU if and only if only the desired stock can be applied for its version and no call with another stock may still arrive or has an answer to store that changes the row its handler loaded |
| StockHandlers.CheckedStockStaysExactlyWhen | backend/poi_admin/local_life/products.py:636-652 | when commits find the version their requests had read, the calls are the only condition |
| StockHandlers.LateUpdateUnsettles | backend/poi_admin/local_life/products.py:636-652 | such calls occur without any overlap of requests: a superseded update that arrives after the newer one was applied |
| PoiSync.FindIsFound | backend/poi_admin/stores/service.py:330-339 | the look-up by remote id finds a row exactly when there is one |
| PoiSync.PendingMatchesAre | backend/poi_admin/stores/service.py:340-349 | the adoption candidates are exactly the pending rows with the same normalised name and address |
| PoiSync.PoiMirror.MarkStaleRows | backend/poi_admin/stores/service.py:320-329 | every row the list no longer has is marked deleted, except reserved ones |
| PoiSync.MarkingIs | backend/poi_admin/stores/service.py:320-329 | listed rows and those with an `audit:` or `map:` id are kept; any other is deleted and keeps its remaining columns |
| PoiSync.PoiMirror.AbsorbOne | backend/poi_admin/stores/service.py:330-372 | one record is written, column by column, to the row with its id, else to the only pending match, else to a new row |
| PoiSync.PoiMirror.SyncPois | backend/poi_admin/stores/service.py:283-376 | the two loops compute the sync and report the row written for each record |
| PoiMirrorProofs.MirrorEqualsRemoteList | backend/poi_admin/stores/service.py:283-376 | every id whose last record no later one can adopt has a row; each listed id has at most one, whose id, name, address, status and detail are those of its last record; every other row is deleted or reserved and untouched, local ids are kept, and only pending rows change their remote id |
| PoiMirrorProofs.EveryIdHasARowExactlyWhen | backend/poi_admin/stores/service.py:340-351 | a list without repeated ids gives every listed id its row, whatever the mirror holds, if and only if no record with an `audit:` id is followed by one with the same normalised name and address |
| PoiMirrorProofs.LookalikesVanish | backend/poi_admin/stores/service.py:340-351 | for every other such list, a mirror after whose sync a listed id has no row |
| PoiMirrorProofs.UniqueMatchIsAdopted | backend/poi_admin/stores/service.py:340-351 | a pending row that is the only match of a new record, that no earlier record matches or names, and that, if the record's id looks pending itself, no later record can take over, is adopted under its local id and reported for that record |
| PoiMirrorProofs.SingleMatchIsOnlyCandidate | backend/poi_admin/stores/service.py:340-351 | in particular the only row of a mirror is adopted by the only record of a list, if it matches and has a new id |
| PoiResync.SecondSyncChangesOnlyTimesExactlyWhen | backend/poi_admin/stores/service.py:283-376 | for a list without repeated ids, a second sync changes nothing but timestamps, whatever the mirror held before the first one, if and only if of the records with one normalised name and address at most two have `audit:` ids, and the last one if any has |
| PoiResync.SecondSyncSwapsBack | backend/poi_admin/stores/service.py:340-351 | in the second sync of such a list two of those records take one row from each other and give it back, and every other row stays |
| PoiResync.SecondSyncChangesOnlyTimes | backend/poi_admin/stores/service.py:283-376 | for every list, repeated ids included, a second sync changes only timestamps if the first one left every listed id its row |
| PoiResync.SafeListsSyncTwice | backend/poi_admin/stores/service.py:283-376 | so it does for every list all of whose ids are safe, which is seen in the list alone |
| Mappings.VerdictIsDetermined | backend/poi_admin/stores/service.py:550-567 | on a partial matching the check answers the same whichever conflicting row its query returns, and accepts exactly an active mapping of this pair |
| Mappings.VerdictNeedsMatching | backend/poi_admin/stores/service.py:550-567 | without the matching the answer depends on the row |
| Mappings.VerdictIs | backend/poi_admin/stores/service.py:550-567 | the mapping of exactly the pair is the answer, and any other row a conflict |
| Mappings.MappingService.CreateMapping | backend/poi_admin/stores/service.py:532-585 | missing resources, an existing pair, a conflict or one new active mapping; active mappings stay a matching |
| Mappings.MappingService.UnbindMapping | backend/poi_admin/stores/service.py:603-622 | exactly an active mapping is unbound |
| Mappings.MappingService.ArchiveStore | backend/poi_admin/stores/service.py:181-216 | at the version its caller saw a store becomes inactive and all its mappings are unbound, and no other; a missing store or another version changes nothing |
| Mappings.MappingsStayAMatching | backend/poi_admin/stores/models.py:139-157 | in every interleaving of checks, inserts, unbindings and archivals the active mappings stay a partial matching per connection, and the check stays determined |
| Mappings.CheckIs | backend/poi_admin/stores/service.py:532-567 | a caller goes on from the check exactly if the store exists and no active mapping of the POI's connection touches the store or the POI |
| Mappings.InsertIs | backend/poi_admin/stores/models.py:139-157 | the insert adds the active mapping exactly if by then still none touches the store or the POI |
| Mappings.UnbindingIs | backend/poi_admin/stores/service.py:603-622 | an unbinding that found its mapping active makes it inactive; archiving a store does so to all its mappings and no other |
| Mappings.UnboundIsFinal | backend/poi_admin/stores/service.py:603-622 | a mapping that is no longer active stays as it is |
| Candidates.ByScoreSorts | backend/poi_admin/stores/service.py:455-461 | the list is a permutation with decreasing scores |
| Candidates.LiveIs | backend/poi_admin/stores/service.py:378-461 | POIs marked deleted or stale are no candidates |
| Candidates.CandidateService.GenerateCandidates | backend/poi_admin/stores/service.py:378-461 | the nested loops compute the open pairs in order and store their scores |
| Candidates.GeneratesExactlyTheOpenPairs | backend/poi_admin/stores/service.py:378-461 | exactly one candidate per active unmapped store and live unmapped POI whose pair is not dismissed; all other stored candidates are unchanged |
| Pagination.FetchAll | backend/poi_admin/local_life/accounting.py:284-315 | a fetch succeeds exactly when the chain of cursors ends within 1000 pages and then returns the whole chain; it reports a gateway error exactly when a request of the chain fails, and a repetition exactly when a cursor comes back within the limit; no cursor is sent twice |
| Pagination.RepetitionNeverEnds | backend/poi_admin/local_life/accounting.py:284-298 | a chain that comes back to a cursor never ends, so stopping there loses nothing |
| Pagination.EndingChainsDoNotRepeat | backend/poi_admin/local_life/accounting.py:284-298 | a chain that ends sends every cursor once |
| Accounting.AccountingService.Sync | backend/poi_admin/local_life/accounting.py:269-389 | success exactly for a valid payload, a known connection and two chains that end in time; then both ledgers hold the upsert of the complete lists; any failure, gateway errors included, leaves all rows alone; the two counts are those of the fetched items |
| Accounting.AccountingService.UpsertFunds | backend/poi_admin/local_life/accounting.py:316-348 | the loop over funds computes the upsert |
| Accounting.AccountingService.UpsertBills | backend/poi_admin/local_life/accounting.py:349-384 | the loop over bills computes the upsert |
| Accounting.FundColumns | backend/poi_admin/local_life/accounting.py:340-348 | where kind, amount, currency and time of a fund come from: the first field present, and a default without one |
| Accounting.BillColumns | backend/poi_admin/local_life/accounting.py:376-384 | the same for a bill, and when it is a refund |
| Accounting.SummaryIs | backend/poi_admin/local_life/accounting.py:54-86 | exactly the flat public fields of an item are kept as they are |
| Accounting.FundKeysAre | backend/poi_admin/local_life/accounting.py:316-323 | a fund is stored under the id it names, and not without one |
| Accounting.BillKeysAre | backend/poi_admin/local_life/accounting.py:349-361 | a bill without an id is stored under the digest of five fields, unless they are all empty |
| Accounting.LastOccurrenceWins | backend/poi_admin/local_life/accounting.py:316-384 | a row holds exactly the last item stored under its key, under the local id it had |
| Accounting.OtherRowsAreUntouched | backend/poi_admin/local_life/accounting.py:316-384 | a key no item is stored under keeps its row, and gets none |
| Accounting.LocalIdsStayUnique | backend/poi_admin/local_life/accounting.py:316-384 | no two rows share a local id |
| Accounting.RerunChangesNothing | backend/poi_admin/local_life/accounting.py:316-384 | storing the same list again changes no row |
| Accounting.IdentityDeterminesFields | backend/poi_admin/local_life/accounting.py:352-361 | the joined identity determines its fields exactly when none of them holds the separator |
| Accounting.SeparatorsConfuseBills | backend/poi_admin/local_life/accounting.py:352-384 | bills of different products and orders that share an identity, so that the second one overwrites the row of the first |
| Reconciliation.Total | backend/poi_admin/local_life/accounting.py:162-163 | the total of the amounts |
| Reconciliation.ByOrder | backend/poi_admin/local_life/accounting.py:164-179 | per order the sum of its rows, and the number of rows without one |
| Reconciliation.Compare | backend/poi_admin/local_life/accounting.py:180-193 | the differing orders and their net difference |
| Reconciliation.Summarise | backend/poi_admin/local_life/accounting.py:159-206 | the summary: totals, the linked orders with unequal sums and no others in increasing order, their net, and the counts of unmatched rows and orders |
| Reconciliation.OrderIs | backend/poi_admin/local_life/accounting.py:169-179 | the order of a row: its order id without surrounding spaces, none if that is missing or empty |
| Reconciliation.EveryOrderIsCounted | backend/poi_admin/local_life/accounting.py:198-206 | on each side the linked and the unmatched count together are all orders and all rows without one |
| Reconciliation.BeforeIsTotal | backend/poi_admin/local_life/accounting.py:182 | the order in which ids are sorted is total and strict |
| Reconciliation.NetIsTheLinkedOrders | backend/poi_admin/local_life/accounting.py:182-194 | the net difference is the difference of all linked orders, listed or not |
| Reconciliation.MoneyIsConserved | backend/poi_admin/local_life/accounting.py:159-206 | fund total minus bill total is the net difference plus orderless and fund-only amounts minus orderless and bill-only amounts |
| Reconciliation.SummaryIsDetermined | backend/poi_admin/local_life/accounting.py:159-206 | rows have at most one summary |
| Reconciliation.SummaryIgnoresListing | backend/poi_admin/local_life/accounting.py:133-206 | the summary is invariant under permutation of the rows |
| AccountingHandler.SyncAndSummarise | backend/poi_admin/local_life/accounting.py:269-389 | the whole handler: it stores and fails as the sync does, and answers with the summary of all rows the tenant has stored afterwards, in whatever order they are listed |
| AccountingHandler.ListingsArePermutations | backend/poi_admin/local_life/accounting.py:133-157 | the stored rows have one list up to order |
| AccountingHandler.StoredItemIs | backend/poi_admin/local_life/accounting.py:54-86 | a stored item counts for the order it names upstream, with the amount of its column |
| Vouchers.MockGateway.ConsumeVoucher | backend/poi_admin/connections/mock.py:209-231 | an available voucher is consumed at the asking store, a consumed one answers as it is, any other is refused; no other voucher changes |
| Vouchers.MockGateway.RevokeConsumption | backend/poi_admin/connections/mock.py:233-250 | exactly a consumed voucher becomes available again |
| Vouchers.VoucherService.Consume | backend/poi_admin/local_life/vouchers.py:394-467 | for every voucher, payload, network fault and look-up: the remote voucher changes exactly when the request arrives, the local one exactly when the attempt ends with a result, whose state, store and safe fields it then holds |
| Vouchers.SendingEnds | backend/poi_admin/local_life/vouchers.py:423-444 | where a request leads: an answer ends the attempt with the voucher as it then is; a timeout or an unavailable upstream leads to a look-up, any other trouble to failure |
| Vouchers.LookupEnds | backend/poi_admin/local_life/vouchers.py:445-460 | a look-up succeeds exactly for a voucher consumed at the requested store or at one that is not named |
| Vouchers.AttemptEnds | backend/poi_admin/local_life/vouchers.py:423-467 | exactly which undisturbed attempts end with a result, and with which |
| Vouchers.ResultIsStored | backend/poi_admin/local_life/vouchers.py:394-404 | which columns a result stores: state, store, public fields, request and times |
| VoucherRuns.ConsumptionsAreRevokedOrHold | backend/poi_admin/connections/mock.py:204-250 | in every run, other consumers and revocations included, each consumption beyond the one that holds was revoked |
| VoucherRuns.SuccessMeansConsumed | backend/poi_admin/local_life/vouchers.py:394-467 | in every run only consumed vouchers are stored as results |
| VoucherRuns.ConsumedAtMostOnce | backend/poi_admin/local_life/vouchers.py:406-467 | without competition the operation consumes the remote voucher at most once, under any losses, late arrivals, repetitions and crashes, and only one that was available |
| VoucherRuns.SuccessSettlesBothSides | backend/poi_admin/local_life/vouchers.py:394-467 | after a success both sides are consumed and agree on the store; it is the requested one exactly when the voucher had not been consumed elsewhere before |
| VoucherRuns.SuccessIsStable | backend/poi_admin/local_life/vouchers.py:394-467 | no later attempt or arrival changes either side but for the time of the last synchronisation |
| VoucherRuns.RetriesAreNotRefused | backend/poi_admin/local_life/vouchers.py:406-467 | an attempt is refused only if the voucher was neither available nor consumed from the start |
| VoucherRuns.AttemptIsTheHandler | backend/poi_admin/local_life/vouchers.py:406-467 | sending, looking up if in doubt and storing, without interruption, is one run of the handler |
| VoucherRuns.EventsAre | backend/poi_admin/local_life/vouchers.py:406-467 | late requests arrive once each; a worker may stop at any time; what other consumers, revocations and refunds do, and when |
| VoucherRuns.NextAttemptSucceeds | backend/poi_admin/local_life/vouchers.py:437-467 | the next attempt whose request arrives succeeds when answered; when looked up instead, exactly if the voucher was not consumed at another store before |
| Framing.WordsAreNumbers | backend/poi_admin/webhooks/crypto.py:47-72 | the length field and the number it encodes determine each other |
| Framing.WordsAreBigEndian | backend/poi_admin/webhooks/crypto.py:51 | the most significant byte comes first |
| Framing.UnpadUndoesPad | backend/poi_admin/webhooks/crypto.py:38-54 | stripping undoes padding for data of any length (PKCS#7, section 6.3 of RFC 5652, with 32-byte blocks) |
| Framing.PadUndoesUnpad | backend/poi_admin/webhooks/crypto.py:38-54 | padding restores what was stripped exactly when the padded data was a multiple of 32 bytes |
| Framing.PaddingIs | backend/poi_admin/webhooks/crypto.py:55-58 | one to 32 bytes are added, each of which is their number |
| Framing.StrippedIsPadding | backend/poi_admin/webhooks/crypto.py:38-44 | exactly such padding is stripped |
| Framing.AcceptedFramesAreFrames | backend/poi_admin/webhooks/crypto.py:68-79 | a frame yields a message for an AppID exactly when it is some sixteen bytes framing that message with that AppID, and the AppID is ASCII |
| Framing.DecryptionInvertsEncryption | backend/poi_admin/webhooks/crypto.py:47-84 | every message under 2^32 bytes comes back exactly when it is read with the AppID it was written with and that is ASCII; any other reader gets an error |
| Framing.EncryptionErrorsAre | backend/poi_admin/webhooks/crypto.py:47-60 | what keeps a message from being encrypted, in order |
| Framing.DecryptionErrorsAre | backend/poi_admin/webhooks/crypto.py:63-68 | what keeps a text from being decrypted to a frame, in order |
| Framing.FrameErrorsAre | backend/poi_admin/webhooks/crypto.py:68-79 | what is wrong with a refused frame, in order, and which frames are accepted |
| SlotLoop.RunOnce | backend/poi_admin/operations/worker.py:90-104 | the preferred queue is asked first and the other one if that is empty |
| SlotLoop.RunSlot | backend/poi_admin/worker.py:18-47 | what a slot does in each cycle is the same for every burst size; it sleeps exactly after a burst whose first cycle found nothing |
| SlotLoop.RunBurst | backend/poi_admin/worker.py:29-47 | one burst: it ends with a cycle that found nothing, when it is full, or with the offers |
| SlotLoop.ServiceIs | backend/poi_admin/worker.py:27-45 | the preferred queue is served whenever it has something; even slots prefer webhooks first, and the preference flips exactly after a cycle that served one |
| SlotLoop.SleepsAre | backend/poi_admin/worker.py:46-47 | no sleep after a cycle that found something; always one after the second of two that did not |
| SlotLoop.BurstsFill | backend/poi_admin/worker.py:29-47 | a burst goes on through cycles that find something until it is full, and the next one starts there |
| SlotLoop.NeitherQueueStarves | backend/poi_admin/worker.py:27-47 | of two consecutive productive cycles in which a queue has something, one serves it, across burst boundaries |
| SlotLoop.EachQueueGetsHalf | backend/poi_admin/worker.py:27-47 | over n cycles in which a queue always has something, at least half serve it, whatever the other queue holds |
| Tokens.TokenProvider.GetToken | backend/poi_admin/connections/tokens.py:54-62 | the service is asked exactly when the cached token cannot be used; a refusal changes nothing |
| Tokens.TokenProvider.Refresh | backend/poi_admin/connections/tokens.py:157-219 | which replies are errors of which kind, and what a grant stores |
| Tokens.UsableIs | backend/poi_admin/connections/tokens.py:54-62 | a cached token is used exactly when it is not forced away and has more than 60 s left |
| Tokens.GrantsAre | backend/poi_admin/connections/tokens.py:74-111 | exactly which replies grant a token, for both providers |
| Tokens.RefusalsAre | backend/poi_admin/connections/tokens.py:74-111 | exactly which replies are errors of which kind |
| Tokens.GrantIs | backend/poi_admin/connections/tokens.py:204-219 | how long a grant is cached, and when a refresh token replaces the stored one |
| Tokens.TokenProvider.Invalidate | backend/poi_admin/connections/tokens.py:118-119 | from then on no call uses the cached token until the next grant |
| TokenRuns.OneRefreshInFlight | backend/poi_admin/connections/tokens.py:58-62 | under any interleaving at most one refresh is in flight, by the holder of the lock |
| TokenRuns.UninterruptedCallIs | backend/poi_admin/connections/tokens.py:54-116 | a call that is alone does what the provider's method does |
| TokenRuns.EventsAre | backend/poi_admin/connections/tokens.py:54-119 | invalidation, cancellation and the passing of time |
| TokenRuns.NewestRefreshTokenIsPresented | backend/poi_admin/connections/tokens.py:157-213 | every refresh in flight presented the newest refresh token any reply brought, or the first one if none did |
| TokenRuns.CallsEndWithTheNewestToken | backend/poi_admin/connections/tokens.py:54-62 | a call that ends with a token ends with the newest one |
| TokenRuns.WaitersShareTheRefresh | backend/poi_admin/connections/tokens.py:147-155 | a caller that waited for a refresh returns its token without fetching exactly when it is not forced and more than 60 s of the granted lifetime are left; otherwise it fetches |
| TokenRuns.ShortLivedTokensAreNotShared | backend/poi_admin/connections/tokens.py:105-116 | a token granted for a minute or less is fetched anew by every later caller |
| TokenRuns.NoStampede | backend/poi_admin/connections/tokens.py:54-62 | without forced calls and invalidations no request follows a grant until all but a minute of its lifetime has passed, however many callers come |

## Left out

- ProductOverlap.HoldsExactlyWhenCommitsPass: for runs without callbacks; a callback that arrives after a commit took the version back can restore a version that was already recorded.
- ProductOverlap.CheckedRunsKeepAll: conditional on commits that find the version their requests had read, which the code does not enforce; so are CheckedRunsWithCallbacks, CheckedRunsReviveNothing, ProductQueue.CheckedCommandsSettle and ProductQueue.CheckedCommandsRunAlone.
- QueueHandlers.LeasesKeepHandlersUndisturbed: conditional, besides, on no manual retry and on leases that outlive the attempts they were given for, which the code does not enforce; so is LeasedCommandsSettle.
- ProductHandlers.DeletedIsFinalExactlyWhen: a gateway call takes effect when it is answered; late arrivals at the gateway are taken apart for stock only, in StockHandlers.
- ProductRuns.FinishedCommandsActOnce: covers runs after one that finished; a retry after a lost reply calls the gateway again.
- StockRuns.UnclashedStockConverges: conditional on commits that give no version a second stock, which the code does not enforce; so are CreationRerunsNeverConflict and CreationConflictsExactlyOnForeignKeys.
- Products.ProductService.Submit: one request without interference, as are Stock.StockService.UpdateStock and Operations.OperationService.Enqueue; the transition systems take them apart.
- PoiMirrorProofs.EveryIdHasARowExactlyWhen: for lists without repeated ids; with repeated ids MirrorEqualsRemoteList gives the sufficient half, because whether a later record can adopt a row then also depends on whether an earlier record of its own id still has one. The exact condition for such lists is open.
- PoiResync.SecondSyncChangesOnlyTimesExactlyWhen: for lists without repeated ids; for the others SafeListsSyncTwice gives a sufficient condition, and the exact one is open for the same reason.
- PoiMirrorProofs.UniqueMatchIsAdopted: one direction; a row can also be adopted after an earlier record took away a second match.
- AccountingHandler.SyncAndSummarise: without the two lists of rows the answer repeats.
- Vouchers.VoucherService.Consume: the decryption of the voucher code is an optional text.
- OperationRuns.NoRowIsStranded: a manual retry is one atomic step; the original reads the row and then updates it without a guard on its status.
- BatchRetry.BatchIsFoldOfSingles: one clock reading stands for the whole batch and for the single retries it is compared with.
- TokenRuns.NoStampede: the lock serves waiting callers in any order, and reading the clock and checking the cache are one step.
- A handler's validation, its gateway call and its commit are one step in ProductRuns, ProductOverlap, ProductQueue and StockRuns, and taken apart in ProductHandlers, QueueHandlers and StockHandlers; the look-ups before the gateway call are one step there too. A callback is one step, and so are a command's key look-up and its read of the product.
- Row locking (`SKIP LOCKED`) is not modelled; any claimable row may be picked by a claim in the queue's transition system.
- Digests (idempotency keys, fingerprints, bill identities) are modelled by what they are digests of or are parameters; request numbers are opaque.
- Case folding covers ASCII letters; other Unicode case folding is not modelled.
- Encrypted operation payloads, connection secrets, and the internals of AES, base64, JSON and UTF-8.
- Backoff overflow of floating point for very many attempts; times and delays are real numbers.
- The fencing of webhook rows, and which callback event types change which status; callbacks set any status and raise the version.
- Liveness of products after callbacks, beyond ProductRuns.ListingNeedsAListableStart.
- That an inactive store has no active mapping: mapping creation does not check the store's status, so it is not an invariant.
- The scores of match candidates, the HTTP adapters, audit log, roles, sessions, licensing, dashboards, routers and the frontend.
- Voucher look-up by order, masking of codes and the local revoke handler; revocations appear as steps of other parties.
- The signature check of callbacks.
