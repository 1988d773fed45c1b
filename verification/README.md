# The SAP outbox protocol of the order service, modelled and proved

The service keeps purchase orders and their items in PostgreSQL and sends item changes to SAP
through an outbox table. An API request enqueues a row, workers claim batches of rows, call SAP
and close every attempt in a transaction that writes a sync log, the item's status and the row;
a pending row can be cancelled. This project models that protocol and proves what holds in every
run of it, with any number of workers, crashes, lost transactions and arbitrary SAP answers.

The model has two layers and a bridge between them.

* **The protocol as a state machine.** `Requests` gives each request and transaction as a
  function of the four tables. `Protocol` adds every worker's claimed batch, the enqueue
  requests between their check and their insert, and a history that no step reads (the calls
  SAP received with what they handed over, the row each log came from, the accepted edits). `Protocol.Run` folds any
  sequence of actions; an action the service refuses leaves the state as it is. The theorems
  quantify over every such sequence from empty tables.
* **The services over a fallible database.** `Database` is a class whose every statement and
  commit works, fails, or takes effect while reporting failure, as an arbitrary fault plan says.
  The repositories, services and worker are classes over it, in the order of the Go statements.
  Between two statements of a request, and between a worker's call and its closing transaction,
  everyone else may act: those steps, or the tables they leave, are parameters (`others`,
  `pauses`, `between`, `later`), and the methods are proved for all of them.
* **Row locks.** `RowLocks` splits claim and cancel into lock and commit steps and shows that
  every finer run is a run of the protocol.

| file | what it holds |
|---|---|
| `Domain`, `Queue`, `Requests`, `Protocol` | statuses and rules, the claim query, the requests, the state machine |
| `CoreInvariant`, `Audit`, `Statuses`, `Content` | the invariants of every run and the theorems they give without further assumption |
| `SerialInvariant`, `Agreement` | the invariant and theorems of runs whose enqueues for one item do not overlap |
| `Futures`, `Masking`, `Stranding` | what can still become of a row: exactly when it can be sent again, hide an edit, or never move |
| `Decisions` | what each request's checks let through and why they refuse, what its writes leave, what status queries answer, in terms of rows |
| `Lifecycle`, `Outcomes`, `Progress` | one-way streets, what single steps amount to, starvation and drain bounds |
| `RowLocks` | claim against cancel and claim against claim, at the grain of row locks |
| `Interference` | what a request or worker can rely on while others act, and exactly when its separate statements amount to one step |
| `Database`, `Services`, `Worker` | the code with loops, writes, faults and others' steps, refining the protocol |
| `Paging`, `Listings` | the order listing: clamp, 64-bit offset, page count; what the listings contain |
| `Examples` | concrete runs in which something a reader might expect fails |

## Assumptions

* At most one enqueue request per item is between its check and its insert, where a theorem says
  `SerialRun`. Nothing in the code enforces this: the check is outside the transaction and no
  unique index backs it. `Examples.OverlapDoublesTheQueue` is a run without it;
  `Agreement.InsertKeepsSingleIff` says exactly when an insert is harmless. The theorems in
  `Audit`, `Statuses`, `Content`, `Lifecycle`, `Progress`, `RowLocks`, `Futures` and `Masking` do
  not need it.
* In the runs of the protocol `UpdateOrder`, `AddItem`, `UpdateItem` and the check of an enqueue
  are one step each. In the code each is several statements without a transaction, and another
  request, or the close of a worker, can fall between any two of them; the order theorems
  `Lifecycle.OrderLifecycle`, `ClosingGuard` and `ClosedOrdersFreeze` depend on this. The class
  methods are proved with others acting in every such gap, and `Interference` says exactly when
  the outcome is that of the protocol's steps (`StatusIsOneStepIff`, `AddIsTwoStepsIff`,
  `EditIsOneStepIff`, `CheckIsOneStepIff`) and what it is when it is not.
* The effects of a transaction appear all at once. The closing transaction decides nothing from
  what it reads, and a cancel holds its row's lock.
* `created_at` and `synced_at` grow strictly with insertion, and rows are never deleted; a row's
  id is therefore its position in its table. Tables start empty.
* Accepted means that SAP answered with success and the worker heard of it. A lost reply carries
  a flag, which no code reads, telling whether SAP had applied the update all the same.

## Findings

* SAP can apply one row twice: a call whose reply is lost counts as failed and is repeated.
  `Futures.AppliedTwiceIff` says exactly when a row that has just been applied can be applied
  again, `Futures.CanBeAppliedIff` when any row still can. After a success that the worker heard
  of it never happens (`Audit.AtMostOnceAcceptance`).
* An edit accepted while content read before it is on its way to SAP can be masked by a close:
  the item keeps the edit but ends SYNCED, and SAP never accepted that content
  (`Examples.LateEditIsLost`). `Masking.EditCanBeMaskedIff` is the exact condition.
* The response about an outbox row shows the newest log of its item, which may belong to another
  row: a COMPLETED row can be shown with a FAILED log (`Examples.EarlierRowShowsALaterLog`). In
  every run the log shown is the row's own if and only if none was written for the item since the
  row was closed (`Agreement.ShownLogIsOwnIff`). Without overlapping enqueues the item's latest row
  always shows its own log when both reads see one state (`LatestStatusShowsItsOwnLog`, otherwise
  `TwoReadsAgreeIff`), and an earlier one exactly when no later row has a recorded attempt
  (`SpecificStatusOwnLogIff`).
* Requests that read first and write later can undo each other. A stale status change opens a
  closed order again (`Examples.StaleStatusReopens`); it moves an order down if and only if it
  writes OPEN over an order no longer OPEN, or IN_PROGRESS over CLOSED
  (`Interference.StaleStatusLowersIff`), and adding an item does if and only if the order was read
  OPEN and has been closed (`StaleAddLowersIff`). An edit that reads its item before a close and
  the row after it leaves the item SYNCED with content SAP never saw (`Examples.EditStaysSynced`,
  exactly when: `Interference.EditIsOneStepIff`). An enqueue whose reads enclose a close sends a
  SYNCED item again and leaves it SYNCED meanwhile (`Examples.SyncedItemIsSentAgain`, exactly
  when: `Interference.SentWhileSyncedIff`).
* A cancel that is refused can answer "not found" for a row that exists, when the row was being
  processed and went back to PENDING before the second read (`Futures.CancelMisnamedIff`).
* A row whose worker crashes, or whose closing transaction is lost, stays PROCESSING for ever and
  blocks every later enqueue of its item (`Stranding.StrandedForever`); a PROCESSING row can still
  change if and only if a worker has it in hand (`Stranding.RecoverableIff`). If its item is
  UPDATED, the order can never be closed (`Stranding.StrandedRowBlocksClosing`).
  `Progress.DrainFinishes` therefore asks that neither happens.
* A page number near the end of the 64-bit range wraps its offset and shows an early page or
  fails (`Paging.HugePageShowsTheFirst`, `Paging.SelectPageExactIff`).

## Model

| member | source | states |
|---|---|---|
| Audit.AtMostOnceAcceptance | internal/service/sync_service.go:116-159 | In every run, with crashes and lost closing transactions, no SAP call for a row follows a call for it whose success the worker heard of |
| Futures.CanBeAppliedIff | internal/service/sync_service.go:116-192 | In every reachable state SAP can still apply a row in some later run if and only if the row is PENDING or in a hand that has not called for it or can put it back |
| Futures.AppliedTwiceIff | internal/service/sync_service.go:117-119 | A row that SAP has just applied can be applied again if and only if the reply was lost and an attempt is left |
| Audit.CallBudget | internal/service/sync_service.go:116-119 | A row gets at most three calls; outside PROCESSING it has had exactly one call per attempt |
| Audit.AcceptanceIsRecorded | internal/service/sync_service.go:152-158 | An accepted row is COMPLETED, or PROCESSING while its close has not committed; a COMPLETED row was accepted by its last call |
| Audit.Ownership | internal/worker/outbox_worker.go:44-66 | A row in a worker's hand is PROCESSING, equals the stored row field for field and is in no other hand |
| Audit.ClosesOnlyProcessing | internal/repository/outbox_repository.go:207-236 | The two closing updates, which have no status guard, only ever change the worker's own current row, and that row is PROCESSING |
| Audit.RowShapes | internal/repository/outbox_repository.go:220-231 | Attempts and processed_at fit every status; a row is PENDING exactly when the claim query looks for it, so no pending row is stranded |
| Audit.AuditTrail | internal/service/sync_service.go:131-192 | A row's logs are exactly the records of its closed calls, one per closed attempt, in call order |
| Audit.LogConservation | internal/service/sync_service.go:131-192 | Per item, logs equal the sum over its rows of attempts less one for each PROCESSING row, and SUCCESS logs equal COMPLETED rows |
| Audit.LogsRecordCalls | internal/service/sync_service.go:117-139 | The k-th log of a row shows the function and the document that the row's k-th call handed to SAP, and these are the row's own |
| CoreInvariant.CoreRun | internal/service/sync_service.go:47-192 | Every action keeps the invariant behind these results: references, row shapes, calls against logs, disjoint hands |
| Agreement.SingleActive | internal/service/sync_service.go:67-102 | Without overlapping enqueues an item has at most one PENDING or PROCESSING row, check and insert split |
| Agreement.InsertKeepsSingleIff | internal/service/sync_service.go:80-105 | The exact condition: an insert keeps a single active row if and only if its item has none when it commits |
| Examples.OverlapDoublesTheQueue | internal/service/sync_service.go:67-102 | Two overlapping enqueues end with two active rows for one item |
| Statuses.StatusStandsOnLogs | internal/service/sync_service.go:122-182 | In every run SYNCED stands on a newest log of SUCCESS; FAILED on a newest FAILED log, of a rejection or of a row out of attempts; PENDING on no row and no log ever |
| Agreement.ActiveItemStatus | internal/service/sync_service.go:122-157 | Without overlapping enqueues an item with an active row is UPDATED, or FAILED with that row's rejection as its newest log; so a SYNCED or PENDING item has no active row |
| Agreement.FailedAwaitingRetry | internal/service/sync_service.go:125-129 | A FAILED item with an active row had its last recorded call rejected, not lost in transport |
| Agreement.ClosingOverActiveRows | internal/domain/status_rules.go:39-58 | An order is closed over an active row only when that row's item is FAILED and awaits the retry of a rejection |
| Agreement.LatestStatusShowsItsOwnLog | internal/service/sync_service.go:201-212 | The latest-status response shows a log exactly for COMPLETED and FAILED rows, and it is that row's own last log, SUCCESS exactly for COMPLETED |
| Agreement.SpecificStatusOwnLogIff | internal/service/sync_service.go:214-225 | For a particular finished row the log shown is its own if and only if no newer row of the item has a recorded attempt |
| Agreement.TwoReadsAgreeIff | internal/service/sync_service.go:259-273 | When any run comes between reading the newest row and reading the logs, the log shown is the row's own if and only if no log of the item was written in between |
| Agreement.ShownLogIsOwnIff | internal/service/sync_service.go:214-225 | In every run, overlap included, the log shown with a finished row is its own if and only if no log of its item has been written since the close that finished it |
| Examples.EarlierRowShowsALaterLog | internal/service/sync_service.go:259-273 | A run after which a COMPLETED row is shown with another row's FAILED log |
| Masking.EditCanBeMaskedIff | internal/service/sync_service.go:144-158 | In every run an accepted edit can end hidden, its item SYNCED with a newest log of other content and no further edit, if and only if right after it a row that can still be accepted, or an enqueue in flight, carries other content than the item |
| Masking.EditCanBeMaskedSeriallyIff | internal/service/sync_service.go:67-158 | The same condition decides when enqueues overlap neither before nor after the edit |
| Masking.CanBeMaskedIff | internal/service/sync_service.go:75-158 | The same for any item that shows what SAP accepted, in every state of the invariant |
| Masking.NeverMasked | internal/service/sync_service.go:144-158 | While nothing on its way says other than the item, no run without an edit makes the item stale |
| Content.SyncedContentIsCurrent | internal/service/sync_service.go:75-95 | In every run, if no edit was accepted since the enqueue read the item, some call handed SAP a payload, and was accepted, that carries the current order number, demand code, description and date of the SYNCED item |
| Examples.LateEditIsLost | internal/service/sync_service.go:148-150 | A run in which an edit during the call leaves the item SYNCED with content SAP did not accept |
| SerialInvariant.ReachableIsSerial | internal/service/sync_service.go:47-257 | Every run without overlap keeps the invariant that ties item status, queue and logs together |
| Lifecycle.FinishedForever | internal/repository/outbox_repository.go:126-236 | COMPLETED, FAILED and CANCELLED rows never change again, are never sent to SAP and never logged for |
| Lifecycle.MeasureFalls | internal/worker/outbox_worker.go:44-66 | Two per remaining attempt plus one while PROCESSING: every action that changes a row lowers this measure, and none touches its payload |
| Lifecycle.ChangesBounded | internal/worker/outbox_worker.go:44-66 | A row changes at most six times in any run |
| Lifecycle.OneWinner | internal/repository/outbox_repository.go:126-205 | A pending attempt is in the end still pending, cancelled without a call, or claimed, never two of these |
| Lifecycle.OrderLifecycle | internal/domain/status_rules.go:23-46 | Along every run an order never moves down OPEN, IN_PROGRESS, CLOSED, and one that is not OPEN has an item |
| Lifecycle.ClosingGuard | internal/domain/status_rules.go:39-58 | Every step into CLOSED is from IN_PROGRESS with at least one item and all items SYNCED or FAILED |
| Lifecycle.ReachableKeysUnique | migrations/000001_create_schema.up.sql:5-21 | Order numbers, and demand codes within an order, stay unique, half-done requests included |
| Lifecycle.ClosedOrdersFreeze | internal/service/order_service.go:72-147 | Once an order is CLOSED with no active row and no enqueue in flight, no run changes its status, item set, item fields, rows or logs |
| Progress.NoStarvation | internal/repository/outbox_repository.go:166-177 | A pending row is claimed or cancelled within floor(R/b)+1 claims of b rows that find it unlocked, whatever any number of workers and requests do in between |
| Progress.FirstExit | internal/repository/outbox_repository.go:166-177 | The same bound counted without division, by what each claim that passes the row over takes off the older work |
| Progress.WorkStep | internal/repository/outbox_repository.go:166-177 | No action adds work older than a row, and a claim removes one unit per row it takes |
| Progress.Drain | internal/worker/outbox_worker.go:44-66 | With one worker and no new rows, floor(R/b)+3 batches leave no pending row, crashes included |
| Progress.DrainFinishes | internal/worker/outbox_worker.go:51-65 | If moreover every close commits, every row that waited or was in hand ends COMPLETED, FAILED or CANCELLED |
| Stranding.StrandedForever | internal/repository/outbox_repository.go:111-124 | A PROCESSING row that no worker has in hand never changes again, is never sent again, and every later enqueue check of its item fails |
| Stranding.RecoverableIff | internal/worker/outbox_worker.go:44-66 | In every reachable state a PROCESSING row can still change in some later run if and only if a worker has it in hand |
| Stranding.StrandedRowBlocksClosing | internal/domain/status_rules.go:39-58 | Without overlapping enqueues a stranded row keeps an UPDATED item UPDATED for ever, so its order is never closed |
| RowLocks.FineRunRefines | internal/repository/outbox_repository.go:126-205 | Every run with claims and cancels split into lock and commit steps is a run of the protocol |
| RowLocks.CommitIsClaim | internal/repository/outbox_repository.go:169-175 | Committing the locked rows takes exactly the oldest eligible unlocked rows at commit time that were visible when it locked them |
| RowLocks.OpenClaimsDisjoint | internal/repository/outbox_repository.go:174-174 | Claims open at the same time have locked different rows |
| RowLocks.LockHolds | internal/repository/outbox_repository.go:126-174 | While one side holds a row, no step of the others moves it or takes the lock |
| RowLocks.LockDecides | internal/repository/outbox_repository.go:126-177 | Whatever others do after a row was locked, the holder's commit claims or cancels the row as it was then |
| RowLocks.RaceHasOneWinner | internal/repository/outbox_repository.go:126-205 | Over a whole finer run an attempt is won by the cancel, for good and unsent, or by a claim, never by both |
| RowLocks.SightingsArePasses | internal/repository/outbox_repository.go:169-175 | Commits of claims that saw a row when they selected are, one for one, claims of the protocol that could have taken it |
| RowLocks.NoStarvationUnderLocks | internal/repository/outbox_repository.go:164-177 | With overlapping claims a pending row is claimed or cancelled within floor(R/b)+1 commits of claims of b rows that saw it |
| Queue.ClaimContract | internal/repository/outbox_repository.go:169-175 | The claim takes min(limit, eligible unlocked) distinct rows, and every eligible unlocked row left is newer than every one taken |
| Queue.ClaimIsUnique | internal/repository/outbox_repository.go:169-175 | No other set of rows meets that contract |
| Queue.Pick | internal/repository/outbox_repository.go:169-175 | The rows taken are eligible, unlocked, in age order, and one is left out only when the limit is filled by older ones |
| Outcomes.ClaimOutcome | internal/repository/outbox_repository.go:164-205 | In every reachable state a claim hands over as many pending unlocked rows as there are up to the limit, oldest first, newly PROCESSING with one attempt more and otherwise as they were; all others unchanged |
| Outcomes.CloseOutcome | internal/service/sync_service.go:116-192 | Item, row and log after each kind of answer: a rejection fails the item even when the row is retried, a transport error leaves it UPDATED as long as an attempt is left; the row's error and time, and that nothing else changes |
| Outcomes.CancelOutcome | internal/service/sync_service.go:227-257 | A cancel goes through exactly for a PENDING row of an item of that order, which becomes CANCELLED with time and message, its item UPDATED and nothing else; the reason of every refusal |
| Outcomes.CancelIsFinal | internal/service/sync_service.go:233-245 | A row whose cancel went through stays CANCELLED at that attempt in every later run, is never sent again and gets no log |
| Outcomes.CheckOutcome | internal/service/sync_service.go:47-73 | An enqueue's check succeeds exactly when the order is not CLOSED, the item is its own, UPDATED or FAILED and not yet due, and the item's newest row is done |
| Outcomes.EnqueueOutcome | internal/service/sync_service.go:80-105 | The insert adds one fresh pending row, the newest of its item, with order number, fields and status as they were read, and leaves the item UPDATED whatever happened since the check |
| Outcomes.AddOutcome | internal/service/order_service.go:72-105 | Exactly when an item is accepted; it starts PENDING and its order is IN_PROGRESS afterwards, with nothing else changed |
| Domain.AllItemsTerminal | internal/domain/status_rules.go:48-58 | The loop decides whether there is an item and all are SYNCED or FAILED |
| Domain.TransitionRules | internal/domain/status_rules.go:23-46 | A transition is allowed exactly for a repeat, OPEN to IN_PROGRESS with an item, or IN_PROGRESS to CLOSED with items that are all SYNCED or FAILED; the reason of every refusal; no allowed one goes down |
| Decisions.OrderCreated | internal/service/order_service.go:45-50 | An order is created unless its number is empty or taken; it is OPEN, has that number and creator, and nothing else changes |
| Decisions.StatusAllowedIff | internal/service/order_service.go:52-67 | On the reads of a status change, which may be of two states: allowed exactly when the order exists and the row facts of the rules hold, with the reason of every refusal |
| Decisions.StatusWritten | internal/repository/order_repository.go:129-153 | The write changes that order's status alone |
| Decisions.StatusAsOneStep | internal/service/order_service.go:52-70 | With nobody else acting, those reads and that write are the protocol's step |
| Decisions.AddAllowedIff | internal/service/order_service.go:72-91 | An item may be added exactly when its fields are there, the order exists and is not CLOSED and the date is a day not past, with the reason of every refusal |
| Decisions.ItemInserted | internal/service/order_service.go:93-96 | The insert goes through exactly when the order exists and lacks the demand code; the item is PENDING with the given fields and nothing else changes |
| Decisions.AddAsOneStep | internal/service/order_service.go:72-105 | With nobody else acting, check, insert and promotion are the protocol's step, and without the promotion the order is as it was |
| Decisions.EditAllowedIff | internal/service/order_service.go:107-139 | An edit is allowed exactly when it names no status but something else, the order exists and is not CLOSED, the item is the order's and a given date is a day not past, with the reason of every refusal |
| Decisions.EditedRowWritten | internal/service/order_service.go:141-147 | The write replaces what was given, leaves UPDATED whatever was not, keeps order and demand code, and touches no other row |
| Decisions.EditAsOneStep | internal/service/order_service.go:107-147 | With nobody else acting, those reads and that write are the protocol's step |
| Decisions.EnqueueAllowedIff | internal/service/sync_service.go:47-73 | The reads of an enqueue, which may be of three states, let it through exactly when the order is not CLOSED, the item is the order's, UPDATED or FAILED and not past, and no row of it is PENDING or PROCESSING; the reason of every refusal |
| Decisions.EnqueueAsOneCheck | internal/service/sync_service.go:47-73 | With nobody else acting, those reads are the protocol's check |
| Decisions.RowInserted | internal/service/sync_service.go:75-105 | The transaction appends one PENDING row that carries the item as it was read, turns an item read FAILED back to UPDATED, and changes nothing else |
| Decisions.LatestAnswered | internal/service/sync_service.go:201-212 | An item with rows is answered for with its newest one whatever its status, any other is not found; a log is shown exactly for COMPLETED and FAILED rows, the item's newest |
| Decisions.RowAnswered | internal/service/sync_service.go:214-225 | Every row of the item is answered for whatever its status, any other is not found, with the same log |
| Futures.CancelMisnamedIff | internal/repository/outbox_repository.go:126-156 | A refused cancel can answer not found for an existing row if and only if a worker has the row in hand and can put it back |
| Interference.StatusIsOneStepIff | internal/service/order_service.go:60-69 | A status change allowed by an order and items read one after another and written later is an allowed step if and only if the order was not overtaken: still OPEN for OPEN, not CLOSED for IN_PROGRESS, closed already or all items terminal for CLOSED |
| Interference.StaleStatusLowersIff | internal/service/order_service.go:60-69 | Such a write moves the order down if and only if it writes OPEN over an order no longer OPEN, or IN_PROGRESS over CLOSED |
| Examples.StaleStatusReopens | internal/service/order_service.go:60-69 | A run after which a status change opens a closed order again |
| Interference.AddIsTwoStepsIff | internal/service/order_service.go:93-102 | With others acting before each of its writes, adding an item is the protocol's item without promotion and then its change to IN_PROGRESS, each if and only if the order is not closed by then |
| Interference.AddIsOneStepIff | internal/service/order_service.go:77-102 | With nobody between the two writes it is one step if and only if the order has not been closed since it was read |
| Interference.StaleAddLowersIff | internal/service/order_service.go:98-102 | The promotion moves the order down if and only if the order was read OPEN and is CLOSED when it is written |
| Interference.EditIsOneStepIff | internal/service/order_service.go:115-146 | An edit that reads order, item and row one after another and writes later is one step if and only if the order is not closed, what it leaves alone is unchanged since the row was read, and the item was to be promoted or the row was still UPDATED |
| Examples.EditStaysSynced | internal/repository/item_repository.go:75-97 | A run in which an edit leaves the item SYNCED with content SAP never saw |
| Interference.CheckIsOneStepIff | internal/service/sync_service.go:48-73 | The reads of an enqueue amount to one check at the last if and only if the order has not been closed and the item is as it was read |
| Interference.SentWhileSyncedIff | internal/service/sync_service.go:56-105 | What such reads enqueue leaves the item SYNCED with an active row if and only if it was read UPDATED and is SYNCED when the row is inserted |
| Examples.SyncedItemIsSentAgain | internal/service/sync_service.go:56-105 | A run in which an enqueue does so |
| Interference.HandStays | internal/worker/outbox_worker.go:51-65 | Whatever everyone else does, a worker's hand is as it left it |
| Interference.TicketStays | internal/service/sync_service.go:73-81 | Whatever everyone else does, what an enqueue has read stays what it inserts |
| Services.OrderService.CreateOrder | internal/service/order_service.go:45-50 | Tables unchanged or as the atomic request leaves them, under every fault |
| Services.OrderService.UpdateOrder | internal/service/order_service.go:52-70 | With others acting between any two statements: refused exactly for what was read, otherwise, under every fault, the tables are as others left them or with the status written over that |
| Services.OrderService.AddItem | internal/service/order_service.go:72-105 | Under every fault one of exactly three states: nothing, item only, item and promoted order; each keeps both invariants |
| Services.OrderService.AddRows | internal/service/order_service.go:72-105 | The same with others acting between any two statements: each of the two writes goes over what they left |
| Services.OrderService.UpdateItem | internal/service/order_service.go:107-147 | With others acting between any two statements: refused exactly for what was read, otherwise the tables are as others left them or with the whole edited row written over that |
| Services.OrderService.ListOrders | internal/service/order_service.go:27-39 | A page below 1 becomes 1, a limit below 1 becomes 20, one above 100 becomes 100, any other is kept; counts first and reads the page from what others left; the data is the asked page of that list exactly when the offset fits 64 bits or wraps past the end |
| Services.SyncService.CheckEnqueue | internal/service/sync_service.go:47-73 | The reads, each of the tables as others have left them by then, give the check of those reads or a database error |
| Services.SyncService.InsertEntry | internal/service/sync_service.go:80-105 | The transaction inserts whole or not at all; success means inserted |
| Services.SyncService.EnqueueSync | internal/service/sync_service.go:47-114 | Whatever others do between any two statements, the tables end as they left them or with the insert of what was read; success means the latter; when the reads amount to one check, it is the protocol's insert |
| Services.EnqueueRefines | internal/service/sync_service.go:47-105 | What was read can always be inserted, and reads that amount to one check are the protocol's check and insert around whatever others do |
| Services.SyncService.CancelSync | internal/service/sync_service.go:227-257 | With others acting before the update and before the read that explains a refusal, the tables end as they left them or as the protocol's cancel leaves them; the reason is that of the second read |
| Services.SyncService.RecordReply | internal/service/sync_service.go:131-158 | The callback for an answered call has the effect of the protocol's close |
| Services.SyncService.RecordTransportError | internal/service/sync_service.go:161-183 | The callback for a failed call has the effect of the protocol's close |
| Services.SyncService.CloseAttempt | internal/repository/transaction.go:17-30 | Begin, callback, commit or rollback: all of the close or nothing |
| Services.SyncService.ProcessOutboxEntry | internal/service/sync_service.go:116-192 | Exactly one call, which hands SAP the row's own function and payload; the tables are as the protocol's call, whatever others do meanwhile, and a close or a lost close leave them; a retried transport error is reported although it was recorded |
| Services.SyncService.BuildSyncStatusResponse | internal/service/sync_service.go:259-273 | The response pairs the row with the item's newest log once the row is closed |
| Services.SyncService.GetLatestSyncStatus | internal/service/sync_service.go:201-212 | The newest row and the newest log of two successive states, the pair `Agreement.TwoReadsAgreeIff` is about, or a database error |
| Services.SyncService.GetSyncStatus | internal/service/sync_service.go:214-225 | The asked row and its item's newest log of two successive states, or not found, or a database error |
| Services.AttemptRuns | internal/service/sync_service.go:116-192 | Whatever others do between call and close, the close is never refused, a lost one changes nothing, and either releases the row from the hand |
| Worker.OutboxWorker.ProcessBatch | internal/worker/outbox_worker.go:44-66 | Whatever fails and whatever everyone else does in the pauses, one tick is a run of the protocol, every claimed row is called once with its own function and payload, the hand ends empty |
| Worker.OutboxWorker.ProcessEntries | internal/worker/outbox_worker.go:51-65 | The loop goes on past errors with others acting before every call and every close: one call per claimed row, in order and with what that row carries, and without faults no close is lost |
| Worker.OutboxWorker.ClaimBatch | internal/worker/outbox_worker.go:45-49 | A tick's claim yields nothing, a batch in hand, or rows claimed for nobody |
| Database.Database.Execute | internal/repository/querier.go:19-24 | A statement goes to the open transaction if there is one, has its whole effect or none, and may report failure either way |
| Database.Database.Commit | internal/repository/transaction.go:24-29 | Installs the whole transaction or nothing of it |
| Database.OrderRepository.List | internal/repository/order_repository.go:22-74 | The row loop yields the slice the 64-bit offset selects of what others have left since the count; the total and page count are those of the count |
| Database.OrderRepository.ListItemsByOrderId | internal/repository/order_repository.go:155-187 | The row loop yields exactly the order's items, by delivery date |
| Listings.ByDateIsSorted | internal/repository/order_repository.go:157-162 | The listing by delivery date is sorted and a permutation of the items |
| Listings.RulesIgnoreOrder | internal/domain/status_rules.go:23-58 | The status rules give the same answer for the items in that order |
| Database.OrderRepository.GetById | internal/repository/order_repository.go:76-105 | The order, then its items as others have left them, or not found exactly when there is none |
| Database.ItemRepository.Update | internal/repository/item_repository.go:74-112 | Read, overwrite, write back over what others have left: only that one row changes, in its description, date and status |
| Database.SyncRepository.ListByItemId | internal/repository/sync_repository.go:44-76 | The row loop yields the item's logs, newest first |
| Database.OutboxRepository.Cancel | internal/repository/outbox_repository.go:126-162 | The guarded update; when it matches nothing, the answer is that of a second read of what others have left, with a row PENDING again called not found |
| Database.OutboxRepository.SelectClaimable | internal/repository/outbox_repository.go:169-175 | The scan picks the rows `Queue.Pick` specifies |
| Database.OutboxRepository.ScanEntries | internal/repository/outbox_repository.go:183-204 | The row loop hands out every claimed row once, as it is after the update |
| Database.OutboxRepository.ClaimPending | internal/repository/outbox_repository.go:164-205 | The claimed rows are returned each once as they are after the update; on a lost answer they may be claimed all the same |
| Database.OutboxRepository.MarkCompleted | internal/repository/outbox_repository.go:207-218 | The update by id alone |
| Database.OutboxRepository.MarkFailed | internal/repository/outbox_repository.go:220-236 | The update by id alone, back to PENDING on retry |
| Requests.LatestEntry | internal/repository/outbox_repository.go:79-109 | The newest row of an item, or none exactly when it has no row |
| Agreement.NewestFirst | internal/repository/sync_repository.go:44-51 | The first of an item's logs, newest first, is its newest log |
| Listings.LogPositions | internal/repository/sync_repository.go:44-76 | The log listing holds exactly the item's logs, each once, newest first |
| Listings.ItemPositions | internal/repository/order_repository.go:155-187 | The items of an order are exactly its own, each once |
| Listings.OrderPositions | internal/repository/order_repository.go:41-47 | The listing holds exactly the orders with the wanted status, each once, newest first |
| Paging.PagesPartition | internal/repository/order_repository.go:40-73 | What the queries for pages one to the page count return concatenates to exactly the list |
| Paging.CountedPagesAreExact | internal/repository/order_repository.go:40-47 | No page up to the page count wraps |
| Paging.PageSizes | internal/domain/pagination.go:22-25 | The query returns full pages before the last, a last page that is not empty, and empty ones after it while the offset fits 64 bits |
| Paging.PageCountExactIff | internal/domain/pagination.go:22-25 | The page count is the rounded-up quotient if and only if the sum in it fits 64 bits |
| Paging.SelectPageExactIff | internal/repository/order_repository.go:40-47 | The query yields the asked page if and only if the offset fits 64 bits or wraps past the end of the list |
| Paging.SmallPagesAreExact | internal/service/order_service.go:27-39 | After clamping, no page up to a hundredth of the 64-bit range is affected |
| Paging.HugePageShowsTheFirst | internal/repository/order_repository.go:40-47 | Page 2^58 + 1 of 64 shows page 1 |

## Left out

- Services.OrderService.AddItem: states the three outcomes when nobody else acts in between; `Services.OrderService.AddRows` has others act between any two statements, and `Interference.AddIsTwoStepsIff` ties that to the protocol.
- Lifecycle.OrderLifecycle: holds for requests that are one step; `Interference.StaleStatusLowersIff` and `Interference.StaleAddLowersIff` say exactly when a stale write breaks it.
- Lifecycle.ClosingGuard: likewise; `Interference.StatusIsOneStepIff` says when a stale write of CLOSED keeps it.
- Lifecycle.ClosedOrdersFreeze: likewise; requests that read the order before it was closed are the subject of `Interference`.
- Services.SyncService.CloseAttempt: others do not act inside a transaction; its statements update single rows by id.
- Listings.ByDateIsSorted: items due on one day keep their order of insertion; SQL leaves it open.
- Database.OutboxRepository.ClaimPending: the order in which the update returns its rows is unspecified in SQL; here the class lists them by age, while the protocol lets a worker take its batch in any order.
- Progress.NoStarvation: a claim that finds the row locked by another transaction does not count towards the bound.
- The transaction wrapper takes a callback; here each service method begins, runs its callback as a method of its own, and commits or rolls back.
- XML encoding and date parsing: the payload is a record of the fields the document carries, a date is a day number or malformed text. An encoding error of the enqueue is not modelled.
- The tables' text limits, `updated_at`, generated ids, integer column widths and the development seed (which has SYNCED items without logs).
- PostgreSQL beyond row locks, skipped locked rows, the repeated status test after a lock wait and atomic commit. A locked-out cancel waits by not being a step.
- Log listing (one read), HTTP handlers, authentication, rate limiting, configuration, health checks and logging: no state of the protocol is in them.
- The worker's ticker: ticks are actions in any number and at any time.
- The SAP stub's fixed answer: SAP answers anything.
