# Verification of the PDA backend's stateful protocols

Dafny models of the parts of the PDA backend that keep state over many requests, and proofs of
what they guarantee. Tables are maps, sets and sequences; one SQL transaction, or one
auto-committed statement where the code has no transaction, is one step. For each component there
is a step function, the laws of its runs, and classes whose methods follow the code statement by
statement and are proved equal to the step function. The rules of a component say what one step
does without its functions: in the columns of the tables, the fields of the request and literal
constants, when it takes effect, for which one reason it does not, and everything it leaves.

| files | component |
|---|---|
| `TaskFeed.dfy`, `TaskFeedRules.dfy` | WMS task ingestion: inbox, version gate, projection, operator queue |
| `OperatorQueue.dfy`, `SharedQueue.dfy`, `SharedQueueConvergence.dfy`, `RefusedWithdrawals.dfy` | claims and releases at the operator queue, and the queue shared by all its writers |
| `TaskExecution.dfy`, `TaskExecutionLaws.dfy`, `TaskExecutionRules.dfy`, `TaskReplay.dfy`, `TaskService.dfy` | operator commands on the projected tasks, their replay table and facts |
| `Sessions.dfy`, `SessionRules.dfy` | sessions and refresh-token rotation (the pattern of section 4.14.2 of RFC 9700) |
| `Stock.dfy`, `MovementTasks.dfy`, `MovementLaws.dfy`, `MovementRules.dfy`, `MovementService.dfy` | stock, capacity and ledger; movement commands and transfers |
| `Receiving.dfy`, `ReceivingLaws.dfy`, `ReceivingRules.dfy`, `ReceivingService.dfy` | receiving tasks, lines and balances |
| `OutboxRelay.dfy`, `OutboxRelayProgress.dfy`, `OutboxRelayCycles.dfy`, `OutboxRelayArrivals.dfy` | the outbox relay: safety for many workers, timing for one, whole cycles that settle every row, and one row amid arrivals |
| `InboxConsumer.dfy` | the consumer loop with inbox, dead letters and offsets |
| `RateLimiter.dfy` | the fixed-window rate limiter |
| `Paging.dfy` | cursor pagination, in memory and by keyset |
| `Prelude.dfy`, `Text.dfy`, `Envelope.dfy` | results, the order of strings, sums over maps, string helpers, the event envelope |

`dafny verify dfyconfig.toml` checks everything.

## Where the code and its comments differ

The model follows the code. These are lemmas, each with the exact condition.

- The relay says that two workers never claim the same row. The row lock ends with the claim
  statement, so a row in one worker's batch is claimed again if and only if it is still unpublished
  and due (`HeldRowIsClaimedAgain`, `TwoWorkersPublishOneRowTwice`).
- The queue says that no operator can start work WMS has closed. `Start` does not read the projected
  status, so a withdrawn task can be started (`StartSucceedsExactly`, `WithdrawnTaskStarts`).
- The operator queue is said to be kept consistent with the projection. A claim or release at the queue
  changes the row alone, and raises its version: the row then shows neither the projection nor the
  movement task until one of them writes it again (`ProjectionShownExactly`, `MovementShownExactly`,
  with the inputs `ClaimLeavesTaskBehind`, `ClaimOrderShows`).
- A message that withdraws a task to which a movement, receiving or counting row refers is refused by
  the foreign key on `warehouse_task` and rolled back; the order of messages then shows in the inbox
  exactly when a newer message overtakes it (`OutcomeConvergesExactly`).
- The answer to a transfer looks its balances up by parts of names, so that it can show another place
  (`ReceiptShowsExactly`, `LongerNameHides`).
- A scan that was rejected once is never accepted later, because the insert skips an existing row; if
  an update makes that value the right one, the command succeeds but the task cannot be completed
  (`ScanCountsExactly`, `MismatchThenUpdateBlocks`, `RejectedScanBlocksCompletion`).
- Two simultaneous commands with one id can both take effect (`SimultaneousStartsBothApply`): exactly
  when the second passed the lookup before the first committed and its own checks still pass
  (`DoubleEffectExactly`), which for copies of one request means START and SCAN
  (`TwinAppliesExactly`). The terminal-fact law holds for them too.
- Two first messages of a task processed at once, on the two topics' readers, can leave the older one
  projected (`RaceConvergesExactly`). Convergence is about processing one message after the other.
- The receiving service and the operator queue answer a known idempotency key without checking who
  asks (`ReceivingLaws.RetryAnswersTheSame`, `SharedQueueLaws.RetryAnswersTheSame`); movement and
  transfer refuse another context.
- `Complete` of a receiving task does not look at the status, so it can be repeated
  (`CompletedAcceptsOnlyComplete`); a completed movement task can be claimed again
  (`CompletedReopensExactly`).
- An id that is the empty string breaks paging: the keyset never lists it, and pages of one repeat it
  for ever (`KeysetCompleteExactly`, `MemoryCompleteExactly`). WMS ingestion refuses such a task
  (internal/integration/adapters/kafka/wms_task_consumer.go:242). The paths that can store one check
  nothing: `New` and `Save` of the in-memory store
  (internal/execution/adapters/memory/store.go:24-30, 43) and `Seed` of the database store
  (internal/execution/adapters/postgres/store.go:27-35).
- A task without an explicit operator in its newest message keeps one that depends on the order of
  deliveries (`OperatorConvergesExactly`).

## Assumptions

- WMS sends one message per event id and per task and version (`Consistent`).
- A command id that is nil has been replaced by a fresh one; fresh uuids and random tokens are
  parameters. SHA-256, base64, JSON, uuid and signature checks are injective or decided by a field of
  the input.
- Text helpers cover ASCII letters and spaces. Ids are ordered character by character, which is the
  byte order of their UTF-8 forms and the collation "C" of the database.
- Quantities of task execution are reals; all other numbers are unbounded integers.

## Model

The laws of whole runs come first, then the exact conditions and the failures they imply, then the rules
of one step, then the methods that follow the code statement by statement.

| member | source | states |
|---|---|---|
| `TaskFeedLaws.IngestionConverges` | internal/integration/adapters/kafka/wms_task_consumer.go:254-307 | after deliveries alone two sequences with the same accepted messages, in any order and with any repetition, leave the same inbox, projection and queue keys and rows (operator apart) |
| `TaskFeedRules.NewestIsShown` | internal/integration/adapters/kafka/wms_task_consumer.go:254-303 | after deliveries alone, in any order and with any repetition, the projection of a task is its highest-version message column by column, and the task is queued if and only if that message says neither CANCELLED nor FAILED, with the category and queue status of the literal tables |
| `TaskFeedRules.DeadLettersExactly` | internal/integration/adapters/kafka/wms_task_consumer.go:223-253 | in every run the dead-letter table holds exactly the messages that fail a check, under their event id or topic coordinate, each with a reason that fits |
| `TaskFeedLaws.ReceivedIsEarliest` | internal/integration/adapters/kafka/wms_task_consumer.go:358 | the received time of a task is the least over the messages that were news when they came, in every order and with any repetition; a stale one does not count |
| `SharedQueueLaws.MovementShownExactly` | internal/execution/application/task_service.go:80-131 | in every interleaving of deliveries, commands, movements, claims, releases and counts, a queue row that a movement task wrote last as a whole shows that task if and only if no claim or release has changed it since |
| `SharedQueueLaws.ProjectionShownExactly` | internal/execution/application/task_service.go:80-131 | in every such interleaving a queue row that a delivery wrote last as a whole agrees with the projection, and a withdrawn task has none, if and only if no claim or release has changed it since |
| `SharedQueueLaws.UntakenExactly` | internal/execution/adapters/postgres/store.go:57-66 | none has changed it since, if and only if each claim and release that ever changed the row was followed by a delivery, movement command or count that wrote it |
| `SharedQueueLaws.ClaimIsExclusive` | internal/execution/domain/task.go:76-105 | between two claims of a row by different operators the row was released or written by a delivery, a movement command or a count |
| `SharedQueueLaws.RetryAnswersTheSame` | internal/execution/application/task_service.go:94-102 | a repeated key of a claim or release gets the first answer and changes nothing, whatever ran in between and whoever asks |
| `SharedQueueConvergence.OnlyQueueIsShared` | internal/execution/movement/adapters/postgres/store.go:80-90 | in every interleaving the tables of the dispatched-task service and of movement are, the queue apart, those of their own steps alone, so that their laws carry over |
| `SharedQueueConvergence.RunsConverge` | internal/integration/adapters/kafka/wms_task_consumer.go:254-307 | two interleavings in which the same messages committed have the same inbox and projections; the queue rows of a task last written by deliveries agree, operator apart, if and only if as many claims and releases came since in both and the last was of the same kind |
| `SharedQueueConvergence.DeliveriesDecideExactly` | internal/execution/application/task_service.go:80-131 | a row last written by a delivery is the row that the deliveries alone would leave, operator apart, if and only if no claim or release has changed it since |
| `RefusedWithdrawals.OutcomeConvergesExactly` | migrations/execution/000003_movement_workflows.up.sql:2 | all interleavings that deliver the same messages end with the same inbox and projections if and only if no withdrawal of a task that another table refers to is overtaken by a newer message that leaves the task queued |
| `TaskExecutionLaws.TerminalFactIsLast` | internal/wmstask/service.go:400-476 | in every interleaving of lookups, commits, deliveries and stops a task has at most one terminal fact, nothing follows it, and a Completed follows a Started |
| `TaskExecutionLaws.FactVersionsNeverFall` | internal/wmstask/command.go:135-190 | the versions of the facts of one task never fall in commit order |
| `TaskExecutionLaws.FactIsWritten` | internal/wmstask/command.go:105-114 | every fact in the outbox was written by the commit of one command, for its task, actor and order, with the version projected at that commit, which the caller expected |
| `TaskExecutionLaws.CompletionHasEvidence` | internal/wmstask/service.go:407-436 | a Completed fact had a positive quantity within the remaining one, and for each required type carries an accepted scan, recorded while STARTED, of the non-empty source for SOURCE, destination for DESTINATION, revision for ITEM or lot for LOT then projected |
| `TaskExecutionLaws.AcceptedWasScanned` | internal/wmstask/command.go:42-54 | every accepted scan row was recorded by one commit, at the projected version, of a STARTED task, of a required type, and with the projected source, destination, revision or lot that the type names |
| `TaskExecutionLaws.FinishedIsFinal` | internal/wmstask/service.go:315-316 | after a terminal state the state, the accepted scans and the facts of the task never change |
| `TaskExecutionLaws.NothingMissing` | internal/wmstask/service.go:414-418 | the loop over required scans finds nothing missing if and only if every required type was accepted, case aside |
| `TaskReplayLaws.RetryReplays` | internal/wmstask/command.go:77-94 | after a commit every later request with the id changes nothing and gets the first result, or is refused if it asks something else |
| `TaskReplayLaws.ServedIsRun` | internal/wmstask/command.go:67-131 | serving one request without interruption is the run of its lookup, commit and rejected-scan steps |
| `Sessions.TokensFormChains` | internal/identity/adapters/postgres/session.go:62-173 | in every run the refresh tokens of every session form one acyclic chain: links inverse, one family, one expiry, all but the last used |
| `Sessions.RotationExtendsChain` | internal/identity/adapters/postgres/session.go:152-163 | a rotation presents the last token of the chain and appends the new one |
| `Sessions.TokenIsExchangedOnce` | internal/identity/adapters/postgres/session.go:133-163 | no refresh token succeeds twice in any run |
| `Sessions.ReuseIsFinal` | internal/identity/adapters/postgres/session.go:133-138 | once a used or revoked token of an active operator was presented, no continuation refreshes or authenticates on its session |
| `Sessions.RevocationIsAbsorbing` | internal/identity/adapters/postgres/session.go:103-203 | once a session is revoked or marked expired no continuation refreshes or authenticates on it |
| `Sessions.LifetimeIsAbsolute` | internal/identity/adapters/postgres/session.go:32-46 | thirty days after its creation a session serves nothing, however often it was refreshed |
| `Sessions.LogoutIsFinal` | internal/identity/adapters/postgres/session.go:174-181 | after a logout no continuation uses the session |
| `SessionRules.RunAnswersExactly` | internal/identity/adapters/postgres/session.go:62-203 | in every run each operation succeeds if and only if the columns of its rows and the claims of its token say so |
| `MovementLaws.LedgerRefinement` | internal/execution/movement/adapters/postgres/store.go:133-153 | after any run of movements and transfers the balances are the initial ones with the ledger replayed, every prefix replays to non-negative balances, and totals per warehouse and item are unchanged |
| `MovementLaws.CapacityBound` | internal/execution/movement/adapters/postgres/store.go:107-153 | over movement runs used capacity minus stock is constant per recorded location, and 0 <= stock <= used <= capacity is never left |
| `MovementLaws.CapacityDrift` | internal/inventory/adapters/postgres/store.go:105-121 | with transfers in the run, used capacity trails the stock by exactly what transfers brought in |
| `MovementLaws.CompatibleItemOnly` | internal/execution/movement/adapters/postgres/store.go:124-131 | in every run movements bring only the compatible item to a location that names one |
| `MovementLaws.RetriesChangeNothing` | internal/execution/movement/application/services.go:224-242 | dropping every repeat of a committed key changes no table |
| `MovementLaws.RetryAnswersTheSame` | internal/execution/movement/application/services.go:229-242 | a retry gets the first answer whatever ran in between; the key under another context is refused |
| `MovementLaws.TransferRetryAnswersTheSame` | internal/inventory/application/service.go:74-83 | the same for transfers, whose context is warehouse and operator |
| `MovementLaws.RowsGrowTogether` | internal/execution/movement/application/services.go:266-284 | outbox, audit and command rows grow by the same number in every run |
| `MovementLaws.TaskMatchesLedger` | internal/execution/movement/domain/movement.go:214-233 | in every run the completed quantity is the initial one plus the ledger rows of the task, never above the required one |
| `MovementLaws.TaskRowVersionsClimb` | internal/execution/movement/adapters/postgres/store.go:151 | the ledger rows of one task have strictly increasing versions |
| `MovementLaws.MovesFollowScans` | internal/execution/movement/domain/movement.go:139-220 | each ledger row of a task that started unscanned follows a source scan, then a destination scan, and except for picking an item scan |
| `MovementLaws.AssignmentIsStable` | internal/execution/movement/domain/movement.go:105-120 | a task with an operator keeps that operator in every run |
| `MovementLaws.OnlyAssigneeWorks` | internal/execution/movement/domain/movement.go:93-104 | every committed command but a claim or a group confirmation is by the assignee at the version it saw |
| `MovementRules.TaskIsLastLeft` | internal/execution/movement/domain/movement.go:93-233 | in every run a task is, in every column, what the last command committed on it left: ASSIGNED by a claim, IN_PROGRESS by a start, unchanged in status by a scan |
| `MovementRules.ConfirmedStatusExactly` | internal/execution/movement/domain/movement.go:227-231 | after a confirmation, in every run and until the next command, the task is COMPLETED if and only if its completed quantity equals the required one, and PARTIALLY_COMPLETED otherwise |
| `StockLaws.LedgerExplainsBalances` | internal/execution/movement/adapters/postgres/store.go:133-153 | balances are the replay of the posted rows |
| `StockLaws.PrefixesStayNonNegative` | internal/execution/movement/adapters/postgres/store.go:134-140 | no prefix of the posted rows replays to a negative balance |
| `StockLaws.TotalsAreConserved` | internal/inventory/adapters/postgres/store.go:105-115 | posted rows never change a total |
| `StockLaws.CapacityFollowsStock` | internal/execution/movement/adapters/postgres/store.go:145-150 | used capacity follows the stock except for transfers |
| `ReceivingLaws.ReceivingConserves` | internal/execution/receiving/application/service.go:135-187 | for each warehouse and item, balance minus what the lines of its tasks received is constant over every run with retries |
| `ReceivingLaws.ReceivedIsConfirmed` | internal/execution/receiving/domain/receiving.go:119-168 | each line received exactly the quantities of its committed confirmations, each key once |
| `ReceivingLaws.CompletedIsFinal` | internal/execution/receiving/domain/receiving.go:170-186 | a completed task stays completed and its lines keep their quantities in every run |
| `ReceivingLaws.CompletedExactly` | internal/execution/receiving/domain/receiving.go:150-163 | with over-receipt off, from a start within the expected quantities, a completed task received every line exactly |
| `ReceivingLaws.SaveThenLoad` | internal/execution/receiving/adapters/postgres/store.go:71-110 | a loaded task saved with new quantities loads as it was saved, and no other task changes |
| `ReceivingLaws.RetriesChangeNothing` | internal/execution/receiving/application/service.go:140-146 | dropping every repeat of a committed key changes no table |
| `ReceivingLaws.RetryAnswersTheSame` | internal/execution/receiving/application/service.go:140-146 | a repeated key gets the first answer, also when another operator or task asks |
| `ReceivingLaws.RowsGrowTogether` | internal/execution/receiving/application/service.go:165-195 | a commit adds one outbox and one command row, and each call that is not a repeat one audit row |
| `OutboxRelay.NothingIsLost` | internal/integration/adapters/kafka/integration_relay.go:85-158 | with any number of workers and stops after any statement every row is unpublished, on the topic or dead-lettered, and published_at is never cleared |
| `OutboxRelay.DeadLettersAreDeserved` | internal/integration/adapters/kafka/integration_relay.go:136-147 | dead-lettering only follows a failed write and at least eight claims |
| `OutboxRelayProgress.WaitsAreExact` | internal/integration/adapters/kafka/integration_relay.go:149-152 | the waits are 2^k seconds for k from 1 to 7, the cap never binds, and they add up to 254 seconds |
| `OutboxRelayProgress.RunIsTimed` | internal/integration/adapters/kafka/integration_relay.go:85-158 | a lone worker keeps the timing invariant over every run |
| `OutboxRelayProgress.DeadLettersAreLate` | internal/integration/adapters/kafka/integration_relay.go:25 | attempts never exceed eight and no row is dead-lettered sooner than 254 seconds after its first failure |
| `OutboxRelayProgress.RunSpends` | internal/integration/adapters/kafka/integration_relay.go:93-95 | the attempts left over all unpublished rows fall by one with each claimed row |
| `OutboxRelayProgress.IdleMeasure` | internal/integration/adapters/kafka/integration_relay.go:86-95 | between cycles that measure is zero if and only if every row is settled, and otherwise a due row can be claimed |
| `OutboxRelayCycles.EveryRowSettles` | internal/integration/adapters/kafka/integration_relay.go:85-158 | any sequence of whole cycles of a lone worker in which at least as many claim a row, or find all settled, as the measure counts ends with every row published and on the topic or dead-lettered, however Kafka answers |
| `OutboxRelayCycles.RelaySettlesEveryRow` | internal/integration/adapters/kafka/integration_relay.go:52-158 | calls of `RunOnce` as close together as one likes, over which 128 seconds pass as many times as attempts are left, end with every row published and on the topic or dead-lettered |
| `OutboxRelayArrivals.RowSettles` | internal/integration/adapters/kafka/integration_relay.go:85-158 | while producers append at any moment: when as many cycles claim the row or one of some others, or come after it settled, as these rows have attempts left, the row is published and on the topic or dead-lettered |
| `OutboxRelayArrivals.RelaySettlesRow` | internal/integration/adapters/kafka/integration_relay.go:52-158 | so for a polling relay 128 seconds suffice for each attempt left to the row and the rows claimed before it, those included that arrive before it in the order |
| `OutboxRelayArrivals.OldRowSettles` | internal/integration/adapters/kafka/integration_relay.go:52-158 | a row that was there before the last statement waits for older rows only: 128 seconds for each attempt left to these and to it settle it, however many rows arrive meanwhile |
| `OutboxRelayCycles.SelectionIsUnique` | internal/integration/adapters/kafka/integration_relay.go:86-95 | the claim statement decides which rows are claimed: the due ones, and the hundred oldest by created_at and event_id if there are more |
| `InboxConsumer.CommittedEventsAreSettled` | internal/integration/adapters/kafka/consumer.go:50-120 | with stops after any statement, each committed message is undecodable or in the inbox, and each inbox event was handled or dead-lettered |
| `InboxConsumer.HandlerCallsAreBounded` | internal/integration/adapters/kafka/consumer.go:85-98 | no event is handled again once marked, and each delivery makes at most three handler calls |
| `InboxConsumer.DeadLettersWereRefused` | internal/integration/adapters/kafka/consumer.go:99-106 | every dead letter was refused three times in one delivery |
| `InboxConsumer.EightStatementsCommit` | internal/integration/adapters/kafka/consumer.go:50-120 | from a fetch, eight statements without a stop commit the offset of the message, whatever the handler answers |
| `RateLimiting.SlidingWindowBound` | internal/gateway/adapters/http/router.go:1324-1338 | any half-open interval one window long lets at most 2 * limit - 1 calls of a key through, in every run |
| `RateLimiting.SlidingWindowBoundIsSharp` | internal/gateway/adapters/http/router.go:1324-1338 | for every positive limit and every window of more than one instant some run reaches that bound |
| `RateLimiting.CountingWindowBound` | internal/gateway/adapters/http/router.go:1329-1337 | a counting window lets exactly the smaller of its calls and the limit through |
| `RateLimiting.AllowedExactly` | internal/gateway/adapters/http/router.go:1324-1338 | in every run a request passes if and only if at most `limit` requests of its key were made since its window was opened, itself included; a window is opened by the first request of the key at which no earlier window runs |
| `PagingStores.MemoryPagesAreTheTasks` | internal/execution/adapters/memory/store.go:76-128 | the in-memory store end to end: over any task map without an empty id and for any filter and limit, following its cursors ends within ceil(n / limit) pages that join to exactly the visible tasks by id, each once |
| `PagingStores.KeysetPagesAreTheRows` | internal/execution/adapters/postgres/store.go:68-98 | the keyset store end to end: the same over any table without an empty id, for the rows its query matches |
| `PagingLaws.PagesAreTheListing` | internal/execution/adapters/memory/store.go:76-128 | for every limit, over any listing by id following the cursors ends within ceil(n / limit) pages that join to it, in both stores |
| `PagingLaws.ListingIsUnique` | internal/execution/adapters/memory/store.go:104 | a set of tasks has one listing by id |
| `PagingStores.MatchingLists` | internal/execution/adapters/postgres/store.go:77 | the matching rows are the listing without priority bounds |
| `TaskFeedLaws.OperatorConvergesExactly` | internal/integration/adapters/kafka/wms_task_consumer.go:381-394 | after deliveries alone, whether the queue operator of a task is the same for every order and repetition of the messages: if and only if the newest message names one or no queueing message does |
| `TaskFeedLaws.UnsettledOperator` | internal/integration/adapters/kafka/wms_task_consumer.go:381-394 | the two orders that leave different operators when that condition fails |
| `TaskFeedLaws.RaceConvergesExactly` | internal/integration/adapters/kafka/wms_task_consumer.go:271-286 | two concurrent first messages of a task, both finding no row to lock, end like consecutive ones if and only if the newer one writes last |
| `SharedQueueConvergence.ClaimLeavesTaskBehind` | internal/integration/adapters/wmsmock/movement.go:11 | the seeded PUT-001 after one claim: the queue row is ASSIGNED at version 2, the movement task NEW at version 1 |
| `SharedQueueConvergence.ClaimOrderShows` | internal/execution/application/task_service.go:80-84 | two deliveries and one claim of their task, between them or after them: the row ends one version apart |
| `TaskExecutionLaws.UnknownScanBlocksCompletion` | internal/wmstask/command.go:42-54 | no run completes a task that requires a scan type outside the four known ones |
| `TaskReplayLaws.DoubleEffectExactly` | internal/wmstask/command.go:82-130 | after a commit and any run, another thread takes effect under the same id if and only if it had passed the lookup before that commit, still waits, and its command passes its own checks now |
| `TaskReplayLaws.TwinAppliesExactly` | internal/wmstask/command.go:96-130 | of two waiting copies of one request the second takes effect right after the first if and only if it is a START or a SCAN |
| `TaskReplayLaws.SimultaneousStartsBothApply` | internal/wmstask/command.go:82-124 | two simultaneous STARTs with one id do both apply, for every startable task |
| `TaskReplayLaws.WithdrawnTaskStarts` | internal/integration/adapters/kafka/wms_task_consumer.go:373-380 | so right after a message that says CANCELLED or FAILED has taken a task out of the queue, a START of it takes effect |
| `TaskReplayLaws.MismatchThenUpdateBlocks` | internal/wmstask/service.go:385-394 | a recorded mismatch whose value the next message makes the expected one blocks its scan type |
| `TaskReplayLaws.RejectedScanBlocksCompletion` | internal/wmstask/service.go:366-372 | a blocked task is not completed by any run without another message for it |
| `Sessions.RefreshSucceedsExactly` | internal/identity/adapters/postgres/session.go:126-151 | a refresh succeeds if and only if the token is the unused end of its chain, unrevoked, with session, operator, device and expiry in order |
| `Sessions.AccessWindow` | internal/identity/adapters/postgres/session.go:280-286 | an access token is accepted exactly from the second it was issued in to its expiry second while the session lives |
| `MovementLaws.TransferKeepsFitExactly` | internal/inventory/adapters/postgres/store.go:80-121 | a transfer keeps stock within used capacity if and only if the destination had that much slack |
| `MovementLaws.MoveSucceedsExactly` | internal/execution/movement/application/services.go:234-284 | a fresh confirmation succeeds if and only if the task, the scans, the stock, the capacity, the keys and the envelope allow it |
| `MovementLaws.CompletedReopensExactly` | internal/execution/movement/domain/movement.go:105-120 | a completed task accepts exactly a claim by its operator at its version, which reopens it |
| `StockLaws.TransferSucceedsExactly` | internal/inventory/adapters/postgres/store.go:80-121 | a transfer succeeds if and only if the quantity is positive and held at the source, the places differ, the destination is known and the ledger keys are unused |
| `MovementLaws.ReceiptShowsExactly` | internal/inventory/application/service.go:103-104 | the answer to a transfer shows the new balance of its own place if and only if no other balance that the search by part of the name finds sorts before it |
| `StockSnapshots.LongerNameHides` | internal/inventory/application/service.go:124-132 | with balances at AB and B a search for B shows AB |
| `ReceivingLaws.ConfirmSucceedsExactly` | internal/execution/receiving/domain/receiving.go:119-169 | a confirmation succeeds if and only if the task is the operator's and open at that version and has a line with that id and barcode that takes the quantity, with a remark where one is due |
| `ReceivingLaws.CompletedAcceptsOnlyComplete` | internal/execution/receiving/domain/receiving.go:170-186 | a completed task accepts exactly another Complete by its operator at its version |
| `OutboxRelay.HeldRowIsClaimedAgain` | internal/integration/adapters/kafka/integration_relay.go:83-95 | a row one worker holds is claimed by another if and only if it is still unpublished and due |
| `OutboxRelay.TwoWorkersPublishOneRowTwice` | internal/integration/adapters/kafka/integration_relay.go:83-135 | two workers that start together put one row on the topic twice |
| `OutboxRelayProgress.PostponedExactly` | internal/integration/adapters/kafka/integration_relay.go:149-155 | after failure k a row waits exactly 2^k seconds |
| `OutboxRelayCycles.CycleClaimsExactly` | internal/integration/adapters/kafka/integration_relay.go:86-95 | a cycle claims a row if and only if some unpublished row is due |
| `PagingLaws.MemoryCompleteExactly` | internal/execution/adapters/memory/store.go:104-127 | the in-memory walk lists everything if and only if not (pages of one start with an empty id and another task follows) |
| `PagingLaws.KeysetCompleteExactly` | internal/execution/adapters/postgres/store.go:68-98 | the keyset walk lists everything if and only if no task has the empty id |
| `PagingLaws.StoresAgreeExactly` | internal/execution/adapters/memory/store.go:96-101 | both stores hand out the same pages if and only if the priority bounds exclude nothing |
| `PagingLaws.LostCursorAgreesExactly` | internal/execution/adapters/memory/store.go:105-117 | for a cursor whose task is gone the stores agree if and only if nothing precedes it |
| `TaskFeedRules.ClassifiedExactly` | internal/integration/adapters/kafka/wms_task_consumer.go:223-253 | a message is taken if and only if its envelope, event id, contract version, payload, identity, type and status are all good, types and statuses as listed, and otherwise refused for exactly one reason, the first that applies |
| `TaskFeedRules.NewsLeaves` | internal/integration/adapters/kafka/wms_task_consumer.go:254-307 | what a new and newer message writes, column by column: inbox, projection, received time, queue |
| `TaskFeedRules.NoNewsLeaves` | internal/integration/adapters/kafka/wms_task_consumer.go:254-286 | a known event changes nothing, and one that is no newer is noted as stale |
| `TaskFeedRules.BadLeaves` | internal/integration/adapters/kafka/wms_task_consumer.go:400-420 | any other message is one more dead letter and changes nothing else |
| `SharedQueueRules.DeliveryExactly` | migrations/execution/000003_movement_workflows.up.sql:2 | a delivery is rolled back if and only if it is news, says CANCELLED or FAILED, and its queue row is one that a movement, receiving or counting row refers to; otherwise it is ingested as if alone, and every service sees its queue |
| `SharedQueueRules.CountExactly` | internal/execution/adapters/postgres/store.go:57-66 | a count writes the status, operator and version of one row, and leaves everything else |
| `SharedQueueRules.OtherStepExactly` | internal/execution/application/task_service.go:80-131 | every other step works on the queue as it finds it and leaves the tables of the other services |
| `OperatorQueueRules.PassesExactly` | internal/execution/domain/task.go:76-105 | a fresh claim or release passes if and only if the row is in the actor's warehouse at that version, unassigned or the operator's for a claim and the operator's for a release, and its event is complete |
| `OperatorQueueRules.PassedLeaves` | internal/execution/application/task_service.go:91-131 | what it leaves: operator, status and version of that row, one event of its kind, and the answer under its key; a claim of what one has been assigned leaves the answer only |
| `OperatorQueueRules.RefusedExactly` | internal/execution/application/task_service.go:91-131 | a fresh one is refused for exactly one reason, the first that applies, and leaves nothing |
| `TaskExecutionRules.CommitsExactly` | internal/wmstask/service.go:306-477 | a command takes effect if and only if the projected version is the expected one and: a START or FAIL finds no terminal state; a SCAN a STARTED task, a required type and the non-empty value that the type names; a COMPLETE a STARTED task, a positive quantity within the remaining one and every required scan |
| `TaskExecutionRules.RefusedExactly` | internal/wmstask/service.go:306-477 | otherwise it is refused for exactly one reason, the first that applies |
| `TaskExecutionRules.CommitLeaves` | internal/wmstask/command.go:77-131 | what a commit leaves, column by column: execution row, scan row, fact, and the result under the command id |
| `TaskExecutionRules.ResultShows` | internal/wmstask/command.go:306-327 | the result shows the projection, the new execution row, and the types of the accepted scans |
| `TaskExecutionRules.DigestsAgreeExactly` | internal/wmstask/command.go:329-332 | two requests under one id pass for the same if and only if task, kind, version, operator and content agree; a scan compares type and value joined with a bar |
| `TaskExecutionRules.NormalizedExactly` | internal/wmstask/service.go:306-345 | which requests are refused before any table is read, and the request as it is served: capitals, and no outer white space |
| `TaskExecutionRules.ServedExactly` | internal/wmstask/service.go:306-396 | one request from its checks to its answer: unfit, replayed, in conflict, taking effect, or refused, when only a mismatched scan leaves a trace |
| `SessionRules.AuthenticatedExactly` | internal/identity/adapters/postgres/session.go:250-271 | for every access token: it authenticates if and only if it is authentic, issuer and audience are the configured ones, operator and session are named, it is within its times, and its session is there, active and before its end; it hands out its claims; each refusal has its exact condition |
| `SessionRules.LogoutExactly` | internal/identity/adapters/postgres/session.go:174-181 | a logout passes if and only if its token is genuine and in time; it revokes the session that the token names, if active, and nothing else |
| `SessionRules.LoginExactly` | internal/identity/adapters/postgres/session.go:62-102 | a login succeeds if and only if warehouse and device are the operator's and the keys are free; it opens a session for thirty days with one unused token |
| `SessionRules.RefreshExactly` | internal/identity/adapters/postgres/session.go:116-151 | a refresh of any token on any tables is granted if and only if all its conditions hold, and refused for exactly one reason otherwise |
| `SessionRules.RefreshLeavesExactly` | internal/identity/adapters/postgres/session.go:133-173 | what a granted refresh, a reuse and any other refusal leave in the rows |
| `SessionRules.RevokeRefreshExactly` | internal/identity/adapters/postgres/session.go:182-203 | revoking by refresh token ends the session and revokes each of its tokens that is not yet, and no other |
| `MovementRules.TransitionExactly` | internal/execution/movement/domain/movement.go:93-233 | each command passes its task if and only if version, operator, status, scans and quantity allow it, and what it leaves |
| `MovementRules.DeclinedExactly` | internal/execution/movement/domain/movement.go:93-233 | each command that its task does not accept is answered by exactly one reason, the first that applies |
| `MovementRules.EventExactly` | internal/execution/movement/application/services.go:85-218 | which commands each of the three services offers, and the event each publishes |
| `MovementRules.CommandExactly` | internal/execution/movement/application/services.go:220-284 | a fresh command commits if and only if it is offered, its task is the service's and in the actor's warehouse and accepts it, the stock allows it, and its event and keys may be written |
| `MovementRules.CommandLeaves` | internal/execution/movement/application/services.go:220-284 | what a commit leaves: the task, the status, operator and version of its queue row, the goods of a Confirm gone from the task's source and added at its destination with the capacity they take, one ledger row, and one row each in outbox, audit and commands |
| `MovementRules.RefusedExactly` | internal/execution/movement/application/services.go:220-284 | a fresh command that does not commit is refused for exactly one reason and leaves nothing |
| `TransferRules.TransferExactly` | internal/inventory/application/service.go:69-116 | a fresh transfer commits if and only if source and destination differ, the source holds the positive quantity, the destination is recorded, the keys are free and the event is complete |
| `TransferRules.TransferLeaves` | internal/inventory/application/service.go:84-116 | what it leaves, in the places of its command: the quantity gone at its source and added at its destination, no other balance or capacity changed, one ledger row with these places, and an answer with the balances that the search shows for source and destination before and after |
| `TransferRules.TransferShifts` | internal/inventory/adapters/postgres/store.go:105-119 | the balance at the source falls and the one at the destination rises by the quantity, and no other changes |
| `TransferRules.RefusedExactly` | internal/inventory/application/service.go:69-116 | a fresh transfer that does not commit is refused for exactly one reason and leaves nothing |
| `StockSnapshots.SnapshotShowsExactly` | internal/inventory/application/service.go:124-132 | the search by parts of the names shows the balance asked for if and only if no other balance of the warehouse contains both names, case aside, and comes before it by location and item |
| `ReceivingRules.CommandExactly` | internal/execution/receiving/application/service.go:135-195 | a fresh command commits if and only if its task is in the actor's warehouse and accepts it, by version, status, operator, line, barcode, quantity and remark, and its event and keys may be written |
| `ReceivingRules.CommandLeaves` | internal/execution/receiving/application/service.go:135-195 | what a commit leaves: status, operator and version of the task, the received quantity of the named line, the balance of its item, and one row each in outbox, audit and commands |
| `ReceivingRules.RefusedExactly` | internal/execution/receiving/application/service.go:135-205 | a fresh command that does not commit is refused for exactly one reason and leaves one audit row |
| `OutboxRelayRules.ClaimExactly` | internal/integration/adapters/kafka/integration_relay.go:86-119 | a worker without an item claims up to a hundred different rows, each unpublished and due, and nothing else; each is one attempt further, and the worker holds it with that count |
| `OutboxRelayRules.WriteExactly` | internal/integration/adapters/kafka/integration_relay.go:122-135 | a write puts the item on the topic if Kafka takes it, and is a failure unless Kafka says so |
| `OutboxRelayRules.PublishedExactly` | internal/integration/adapters/kafka/integration_relay.go:136-157 | an item that was written, and one that is a dead letter, is marked as published, and the worker goes on |
| `OutboxRelayRules.RefusedExactly` | internal/integration/adapters/kafka/integration_relay.go:136-155 | a refused item becomes a dead letter from its eighth attempt on, and before that waits for the time of its attempt |
| `OutboxRelayRules.BackoffExactly` | internal/integration/adapters/kafka/integration_relay.go:149-152 | that time doubles from two seconds on, and is five minutes from the ninth failure on |
| `PagingStores.MemoryShowsExactly` | internal/execution/adapters/memory/store.go:79-103 | over any task map without an empty id, the pages of the in-memory store followed to their end hold a task if and only if it is stored, of the warehouse, unassigned or the operator's, of the category and status asked for, with the query in its id, case aside, and within the priority bounds |
| `PagingStores.KeysetShowsExactly` | internal/execution/adapters/postgres/store.go:77 | the same for the keyset store, whose query has no priority bounds |
| `PagingStores.CursorExactly` | internal/execution/adapters/memory/store.go:105-127 | a cursor is refused if and only if it does not decode; a page has at most the limit, and hands out the id of its last task |
| `Text.EqualFoldExactly` | internal/wmstask/command.go:334-341 | two strings are equal, case aside, if and only if they have one length and each pair of characters is the same letter or the same character |
| `Text.TrimExactly` | internal/wmstask/service.go:340-341 | trimming cuts exactly the outer white space |
| `Envelopes.EnvelopeExactly` | internal/platform/event/envelope.go:30-43 | an event is valid if and only if its id, aggregate and actor are named, not blank, and its version positive |
| `TaskConsumer.WMSTaskConsumer.Process` | internal/integration/adapters/kafka/wms_task_consumer.go:223-307 | one delivery, statement by statement, is exactly one ingestion step |
| `TaskConsumer.WMSTaskConsumer.UpsertProjection` | internal/integration/adapters/kafka/wms_task_consumer.go:309-371 | the projection row of the task becomes the message, its source time included, and the earlier received time is kept |
| `TaskConsumer.WMSTaskConsumer.SyncOperatorQueue` | internal/integration/adapters/kafka/wms_task_consumer.go:376-395 | the queue row is deleted for a withdrawn task, otherwise replaced, keeping its operator when the message names none |
| `TaskConsumer.WMSTaskConsumer.DeadLetter` | internal/integration/adapters/kafka/wms_task_consumer.go:400-420 | one dead-letter row per event or topic coordinate, counting attempts over the first envelope |
| `OperatorQueueService.Task.Claim` | internal/execution/domain/task.go:76-91 | the claim: the row it leaves and its errors in order |
| `OperatorQueueService.Task.Release` | internal/execution/domain/task.go:93-105 | the release: the row it leaves and its errors in order |
| `OperatorQueueService.Service.Save` | internal/execution/adapters/postgres/store.go:57-66 | the update of a row, an error where there is none |
| `OperatorQueueService.Service.Mutate` | internal/execution/application/task_service.go:91-131 | one claim or release on all tables: replay by key, row, event and answer; an error writes nothing |
| `TaskService.Service.Serve` | internal/wmstask/service.go:306-477 | one request against the tables is exactly the specified one, errors changing nothing but the rejected-scan row |
| `TaskService.Service.Commit` | internal/wmstask/command.go:96-130 | load, apply, read back and store the result; an error leaves every table as it was |
| `TaskService.Service.ApplyStart` | internal/wmstask/service.go:311-333 | the START transition |
| `TaskService.Service.ApplyScan` | internal/wmstask/service.go:346-375 | the SCAN transition |
| `TaskService.Service.ApplyComplete` | internal/wmstask/service.go:400-437 | the COMPLETE transition |
| `TaskService.Service.ApplyFail` | internal/wmstask/service.go:448-476 | the FAIL transition |
| `TaskService.Service.InsertScan` | internal/wmstask/service.go:385-394 | a scan row is inserted unless the same scan has one |
| `TaskService.Service.AcceptedScanTypes` | internal/wmstask/command.go:243-258 | lists exactly the accepted scan types of the task |
| `TaskService.Service.MissingScan` | internal/wmstask/service.go:410-418 | finds the first required scan without an accepted one |
| `TaskService.ContainsFold` | internal/wmstask/command.go:334-341 | finds a value if and only if one of the list equals it, case aside |
| `Sessions.SessionManager.Create` | internal/identity/adapters/postgres/session.go:62-102 | the login transaction is the specified step |
| `Sessions.SessionManager.Authenticate` | internal/identity/adapters/postgres/session.go:103-115 | the access check is the specified one |
| `Sessions.SessionManager.Refresh` | internal/identity/adapters/postgres/session.go:116-173 | the refresh transaction is the specified step |
| `Sessions.SessionManager.Logout` | internal/identity/adapters/postgres/session.go:174-181 | the logout statement is the specified step |
| `Sessions.SessionManager.RevokeRefresh` | internal/identity/adapters/postgres/session.go:182-203 | the revocation transaction is the specified step |
| `MovementService.MovementTask.Guard` | internal/execution/movement/domain/movement.go:93-104 | the shared guard: the row it leaves and its errors in order, an error leaving the row as it was |
| `MovementService.MovementTask.Claim` | internal/execution/movement/domain/movement.go:105-120 | the claim: the row it leaves and its errors in order, an error leaving the row as it was |
| `MovementService.MovementTask.Start` | internal/execution/movement/domain/movement.go:121-138 | the start: the row it leaves and its errors in order, an error leaving the row as it was |
| `MovementService.MovementTask.ValidateSource` | internal/execution/movement/domain/movement.go:139-154 | the source scan: the row it leaves and its errors in order, an error leaving the row as it was |
| `MovementService.MovementTask.ValidateDestination` | internal/execution/movement/domain/movement.go:155-174 | the destination scan: the row it leaves and its errors in order, an error leaving the row as it was |
| `MovementService.MovementTask.ValidateItem` | internal/execution/movement/domain/movement.go:183-197 | the item scan: the row it leaves and its errors in order, an error leaving the row as it was |
| `MovementService.MovementTask.ValidateLot` | internal/execution/movement/domain/movement.go:198-213 | the lot scan, any lot: the row it leaves and its errors in order, an error leaving the row as it was |
| `MovementService.MovementTask.Move` | internal/execution/movement/domain/movement.go:214-233 | the confirmation of a quantity: the row it leaves and its errors in order, an error leaving the row as it was |
| `MovementService.MovementTask.ConfirmGroup` | internal/execution/movement/application/services.go:162-172 | the group confirmation, which checks the status only |
| `MovementService.MovementTask.Complete` | internal/execution/movement/application/services.go:192-205 | the completion of a pick |
| `MovementService.Database.CheckMove` | internal/execution/movement/adapters/postgres/store.go:107-132 | stock, destination, item and capacity checks in order |
| `MovementService.Database.ApplyMove` | internal/execution/movement/adapters/postgres/store.go:133-153 | the five statements of a move |
| `MovementService.Database.Mutate` | internal/execution/movement/application/services.go:220-297 | one command on all tables: replay, transaction, and rollback of everything on an error |
| `MovementService.Database.Save` | internal/execution/movement/adapters/postgres/store.go:80-90 | the task row and, where there is one, its operator-queue row; an error for a task that is gone |
| `MovementService.Database.Execute` | internal/execution/movement/application/services.go:243-284 | the transaction from the task lookup on |
| `MovementService.Database.ValidateLocations` | internal/inventory/adapters/postgres/store.go:80-104 | the checks of a transfer in order |
| `MovementService.Database.Transfer` | internal/inventory/adapters/postgres/store.go:105-121 | the three statements of a transfer |
| `MovementService.Database.BalanceSnapshot` | internal/inventory/application/service.go:124-132 | the first balance by location and item that the search finds |
| `MovementService.Database.TransferStock` | internal/inventory/application/service.go:69-121 | one transfer on all tables with the balances it shows: replay, transaction, and rollback on an error |
| `ReceivingService.ReceivingTask.Start` | internal/execution/receiving/domain/receiving.go:80-94 | the start |
| `ReceivingService.ReceivingTask.Claim` | internal/execution/receiving/domain/receiving.go:99-114 | the claim |
| `ReceivingService.ReceivingTask.CheckLine` | internal/execution/receiving/domain/receiving.go:132-161 | the checks of one line in order; a remark of blanks only counts as none |
| `ReceivingService.ReceivingTask.Confirm` | internal/execution/receiving/domain/receiving.go:119-169 | the loop over the lines: the changed line, or the error in order with the task untouched |
| `ReceivingService.ReceivingTask.Complete` | internal/execution/receiving/domain/receiving.go:170-186 | the loop over the lines and the completion |
| `ReceivingService.ReceivingTask.ReceivedOf` | internal/execution/receiving/application/service.go:116-121 | what the confirmed line held before |
| `ReceivingService.ReceivingTask.Perform` | internal/execution/receiving/application/service.go:114-133 | the transition with the amount to add to the balance, which is the confirmed quantity |
| `ReceivingService.Database.GetForUpdate` | internal/execution/receiving/adapters/postgres/store.go:71-95 | the task with its lines in order |
| `ReceivingService.Database.Save` | internal/execution/receiving/adapters/postgres/store.go:96-110 | the header and, in a loop, each line by its id; an error for a header that is gone |
| `ReceivingService.Database.ApplyInventory` | internal/execution/receiving/adapters/postgres/store.go:166-169 | the upsert of the balance |
| `ReceivingService.Database.Mutate` | internal/execution/receiving/application/service.go:135-205 | one command on all tables: replay, transaction, rollback, and the denied audit row |
| `OutboxRelayCycles.IntegrationRelay.RunOnce` | internal/integration/adapters/kafka/integration_relay.go:85-158 | one cycle computes its selection, is the run of its statements, counts the acknowledged writes and ends idle |
| `OutboxRelayCycles.IntegrationRelay.ClaimBatch` | internal/integration/adapters/kafka/integration_relay.go:86-119 | the claim statement on the selected rows and the batch it returns |
| `OutboxRelayCycles.IntegrationRelay.Select` | internal/integration/adapters/kafka/integration_relay.go:86-92 | the due rows, oldest first, a hundred at most |
| `OutboxRelayCycles.IntegrationRelay.Oldest` | internal/integration/adapters/kafka/integration_relay.go:90 | the oldest of some due rows by created_at and event_id |
| `OutboxRelayCycles.IntegrationRelay.PublishBatch` | internal/integration/adapters/kafka/integration_relay.go:121-157 | the loop over the batch |
| `OutboxRelayCycles.IntegrationRelay.Deliver` | internal/integration/adapters/kafka/integration_relay.go:122-156 | one write and the statements that follow its answer |
| `InboxConsumer.Consumer.Handle` | internal/integration/adapters/kafka/consumer.go:85-98 | the retry loop |
| `InboxConsumer.Consumer.Settle` | internal/integration/adapters/kafka/consumer.go:85-112 | handler, dead letter and inbox in order |
| `InboxConsumer.Consumer.Fetch` | internal/integration/adapters/kafka/consumer.go:52-84 | fetch, decode and inbox lookup |
| `InboxConsumer.Consumer.One` | internal/integration/adapters/kafka/consumer.go:51-119 | one turn of the loop, up to the offset commit |
| `InboxConsumer.Consumer.Run` | internal/integration/adapters/kafka/consumer.go:50-120 | the whole loop is a run of the statements, which keeps the invariant |
| `RateLimiting.RateLimiter.Allow` | internal/gateway/adapters/http/router.go:1324-1338 | one call is the specified step and answers whether it counted within the limit |
| `PagingStores.ListTasks` | internal/execution/application/task_service.go:51-60 | another warehouse is refused, otherwise the actor's own visible tasks are paged under the clamped limit |
| `PagingStores.MemoryStore.List` | internal/execution/adapters/memory/store.go:76-128 | filter, sort, cursor search and slice give the page of the listing |
| `PagingStores.SlicePage` | internal/execution/adapters/memory/store.go:105-127 | the cursor search and the slice give the page of the sorted values |
| `PagingStores.MemoryStore.Collect` | internal/execution/adapters/memory/store.go:79-103 | collects exactly the visible tasks, each once |
| `PagingStores.SortById` | internal/execution/adapters/memory/store.go:104 | the same tasks in ascending order |
| `PagingStores.FindStart` | internal/execution/adapters/memory/store.go:111-116 | one past the task of the cursor, or the start |
| `PagingStores.KeysetStore.List` | internal/execution/adapters/postgres/store.go:68-98 | the query and the truncation give the page of the matching rows |
| `PagingStores.KeysetStore.Query` | internal/execution/adapters/postgres/store.go:77 | the first limit + 1 matching rows after the cursor |

## Stepping stones

The first three are about one writer of the operator queue alone, and serve the laws of the shared queue;
each of the others follows from one definition.

- `TaskFeedLaws.QueueMirrorsProjection`: deliveries alone keep each queue row in agreement with the projection.
- `TaskReplayLaws.RunsConverge`: ingestion with the commands on dispatched tasks alone converges.
- `MovementLaws.QueueMirrorsTasks`: movement commands and transfers alone keep each queue row in step with its movement task.
- `TaskFeedLaws.FeedShowsNewest`: `NewestIsShown` in terms of the classified message.
- `TaskFeedLaws.AppliedRows`: a message touches the rows of its own task only, only if it is new and newer, and never lowers a projected version.
- `TaskFeed.PriorityOrDefault`: the stored priority is within 1..100 and keeps any sent one that is.
- `TaskExecutionLaws.CommitFacts`: a commit makes one legal state change and writes one fact, or none for a scan.
- `TaskReplayLaws.DoubleEffectNeedsOverlap`: the necessary half of `DoubleEffectExactly`, for any two commits.
- `TaskReplayLaws.StartSucceedsExactly`, `TaskReplayLaws.ScanCountsExactly`: the exact conditions of one START and of one SCAN.
- `Sessions.ReuseRevokesSession`, `Sessions.DeadSessionServesNothing`: one reuse, and one request on a dead session.
- `StockLaws.MoveIsPosted`, `StockLaws.TransferIsPosted`: the statements of a move or a transfer post one ledger row.
- `Paging.ClampLimit`: the limit is within 1..100, and 20 whenever the asked one is not.

## Left out

- 64-bit overflow, and the rounding of quantities to six decimals in numeric(18,6) columns and in `requestHash`.
- `requestHash` joins its fields with "|" and formats the quantity; the model compares the fields, with type and value of a scan joined as in the code.
- `updated_at` and other timestamps that only record the present, and the version column of balances. A row of the outbox is created at the instant it is appended.
- Case folding and trimming outside ASCII; `%` and `_` as wildcards of `ILIKE`.
- Database and network errors other than the constraint violations that a command can cause; a step that fails that way is a step that does not happen, or a stop.
- A stored command result that no longer decodes (internal/wmstask/command.go:88-91).
- The payload fields of events beyond those the laws speak of; `withPublishedAt`; audit details; `normalizeBalances`.
- Publication to the in-process publisher and cache invalidation after a commit, and the error they report when pending.
- The queue row of a receiving task: seeded with the task (internal/execution/receiving/adapters/postgres/store.go:32), it is never written by the receiving service, so that unlike a movement task a claimed or completed receiving task stays NEW in the operator queue.
- What a cycle count writes into its queue row: a count is a step with any status, operator and version.
- `Start` of putaway and picking chains two commands, the second with a fresh key; the model has the two commands.
- `CommandStatus`, `Detail`, `List` and `Suggestions` queries of movement, receiving and inventory.
- Ordering of publications per partition key: a row that backs off does not hold later rows back.
- The polling loops around `process` and `RunOnce`, and at-least-once handling after a processing error.
- Delivery acknowledgements, the inbound-receipt consumer, shipping and cycle counts: the same envelope over simpler state.
- HTTP, SSE, configuration, seeding, the WMS client, the gateway breaker, resilience policies and metrics.
- MovementService.MovementTask.ValidateLot: accepts any lot, because the lot column is not loaded from movement_task.
- InboxConsumer.Consumer.Run: reads a finite log and stops at its end or when its statement budget is spent.
- PagingStores.SortById: stands for the library sort; insertion sort was chosen for it.
