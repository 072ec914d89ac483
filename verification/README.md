# Order management: the transactional store, its audit log and its edges

This project models an order-management backend and proves what its code is written to guarantee. It
covers the four write transactions and the SQL they run, any number of them interleaved; the order
service above them; keyset pagination with its cursor text; and four self-contained loops: the cent
arithmetic, the size-limited reader, the worker's overlap guard and the role resolution.

`dafny verify dfyconfig.toml` checks everything. One module per file:

| Files | Content |
|---|---|
| `Wrappers`, `Numbers`, `Ids`, `Clock`, `Sorting`, `Text` | option and result types, bytes, UUIDs, UTC times, sorting a set of ids by a key, numerals and splitting |
| `StateMachine`, `Schema`, `Commands` | the order lifecycle, the three tables, the four write commands |
| `AtomicSpec` | the reference semantics: commands executed whole, one at a time |
| `Transactions`, `Serializability` | open transactions statement by statement, with row locks and reserved keys, and the proof that every interleaving commits what the reference semantics would |
| `AuditLog`, `Integrity`, `Columns`, `ConcurrentRuns` | what follows for the audit log, the constraints and totals, every column that commits write, and whole concurrent runs |
| `Server`, `Repository`, `Service`, `LostRace` | the code itself: a database object on which other sessions act between any two statements, the repository's transactions, the service's operations, and one race run through from the empty database |
| `Cursor`, `Base64Url`, `Malformed`, `Pagination`, `PagingDuringRuns`, `Drain` | the cursor text and what is refused as one, page walks on a frozen store and between writers, and the worker emptying its queue |
| `Money`, `Validation`, `BoundedReader`, `WorkerLoop`, `RoleResolution` | the self-contained parts |

How the pieces meet. `Transactions.Next` gives the effect of one statement of one transaction; a
schedule is any sequence of enabled statements. `AtomicSpec.Replay` runs a list of commands one at a
time. `Serializability.CommittedTablesAreSerial` says that after any schedule the committed tables are
the replay of the commits in commit order, and everything about committed states is then proved about
`Replay`. `Server.Database` holds such a state; its methods are the statements, and before each one the
object lets an arbitrary prescribed list of other sessions' steps happen, and possibly a failure. The
methods of `Repository` and `Service` are therefore proved for every interleaving. `Server.Executed` says
where a list of statements leads when each is preceded by its part of the prescribed list, and
`Repository.Transaction` is that for a whole command; every writer is proved to succeed exactly if its
`Transaction` leads somewhere, and then to leave the database there. Where nothing interferes (`Alone`) the
contracts spell the outcome out: success exactly if the command is allowed, the log and tables it leaves,
and that no transaction stays open. The commit order `log` is ghost knowledge: no program
reads it, and nothing is claimed about the order of the `created_at` column, which is the start of the
writing transaction.

Four places where the code does less than one might expect, each stated as a theorem:

- A cancel that loses a race after its unlocked read passes the store's no-rows error on instead of
  reporting a conflict, although the documentation promises 409 for every order that is no longer
  PENDING (internal/orders/service.go:202, README.md:327). `LostRace.RaceIsLost` and
  `LostRace.CancelAgainstRival` run it through. The contract of `Service.CancelOrder` gives the exact
  condition for every interleaving: the refusal that becomes 409 is given exactly if the unlocked read
  succeeds and finds the order owned and not PENDING; the no-rows error exactly if that read finds it
  cancellable and the guarded update, reached without a fault, does not. By
  `LostRace.LeftPendingIsRefused` the promise holds, unless the read itself fails, for every order that is
  not PENDING when the call is made, whatever other sessions of the service do before the read.
- A privileged update or a cancel can answer with an error although it was committed
  (internal/orders/service.go:211-226, 257-272). That is so exactly if its transaction goes through and the
  item read after it fails: both are functions of the state and the script (`Service.CancelRun`,
  `Service.UpdateRun`, `Service.Answered`), and `Repository.UpdateGoesThrough` spells out when the
  transaction does. `LostRace.CancelCutOffAfterCommit` runs such a cancel through.
- The overflow test of `multiplyCents` looks at positive factors only. `Money.NegativeFactorsEscapeTheTest`
  gives an input; `Money.MultiplyIsRightExactlyWhen` says exactly when the answer is right. A validated
  request has no negative factor, so this input cannot come from one.
- The worker's wait group can count several runs at once although runs never overlap, because the flag
  is cleared before `Done` is called (`WorkerLoop.WaitGroupCanReach`).

## Model

| member | source | states |
|---|---|---|
| StateMachine.ValidateTransition | internal/orders/state_machine.go:50-64 | no error exactly on an edge of the graph; "invalid transition" exactly for two known statuses without an edge; otherwise the first unknown status is named |
| StateMachine.InferredPredecessorIsUnique | internal/orders/service.go:390-403 | the inferred status is the only one from which the target can be entered; no inferred status means no edge leads to the target |
| StateMachine.TransitionsDeepen | internal/orders/state_machine.go:23-34 | every edge leads one level deeper and none leaves a final status, so the graph is acyclic |
| Clock.BeforeIsChronological | internal/orders/handler.go:344-346 | the field-by-field comparison of UTC times is the order of the one number used for sorting |
| Schema.SortKeyIsRowOrder | internal/db/orders.sql.go:314-330 | the sort number of a row compares as the SQL row comparison on (created_at, id) |
| Sorting.AscendingIsUnique | internal/db/orders.sql.go:466-483 | a duplicate-free sorted listing of a set is the one that ORDER BY computes |
| Transactions.PickIsOldestPending | internal/db/orders.sql.go:466-483 | the worker's statement picks distinct, unlocked, PENDING orders, min(limit, all such) of them, and every one it leaves is younger than each it picks |
| Transactions.BatchPicksOldestUnlocked | internal/db/orders.sql.go:466-483 | SKIP LOCKED: with a limit that is not negative a batch always goes ahead; it takes stored PENDING orders that no other transaction has locked, and leaves one of these over only if it is full and the order is younger than all it took |
| Transactions.GuardDoneMeansHolds | internal/db/orders.sql.go:15-23 | whenever a guarded statement goes ahead, its condition holds of the committed rows it takes and nobody else has them locked |
| Serializability.GuardKeepsInv | internal/db/orders.sql.go:435-442 | taking locks keeps all transactions sound and pairwise disjoint in rows, item ids, event ids and idempotency pairs |
| Serializability.InsertItemKeepsInv | internal/db/orders.sql.go:162-179 | inserting an item keeps them so, whether it succeeds or fails |
| Serializability.InsertEventKeepsInv | internal/db/orders.sql.go:97-120 | inserting an event keeps them so, whether it succeeds or fails |
| Serializability.CommitIsAtomic | internal/orders/repository.go:299-322 | a transaction that made all its writes commits exactly the atomic effect of its command on the tables as they are at that moment |
| Serializability.CommitKeepsOthersGuard | internal/orders/repository.go:299-322 | no commit invalidates what another open transaction's guard has read |
| Serializability.StepKeepsInv | internal/orders/repository.go:299-322 | every statement, commit and rollback of any transaction keeps the invariant |
| Serializability.RunKeepsInv | internal/orders/repository.go:299-322 | so does every schedule |
| Serializability.CommittedTablesAreSerial | internal/orders/repository.go:130-322 | after every interleaving the committed tables are those of the committed commands run one at a time in commit order; open and rolled-back transactions contribute nothing |
| AtomicSpec.LegalAt | internal/orders/repository.go:299-322 | each command of a legal log was allowed by the tables its predecessors left, and took them to its atomic effect |
| AuditLog.CommitTouchesOnlyMoved | internal/orders/repository.go:264-297 | a commit creates or rewrites the orders it moves and leaves every other row as it was |
| AuditLog.CommitWritesOneEventPerMovedOrder | internal/orders/repository.go:273-287 | a commit appends one event per moved order, with the status before and after; a batch signs as SYSTEM |
| AuditLog.CommitFollowsGraph | internal/orders/state_machine.go:23-48 | each commit of a service command takes its orders along an edge, creation being the entry into PENDING |
| AuditLog.AuditLogExplainsState | internal/orders/repository.go:163-175 | an order's events in commit order are a path from nothing through PENDING along allowed edges to its present status; a missing order has none |
| AuditLog.OrdersHaveEvents | internal/orders/service.go:377-388 | an order exists exactly if it has events |
| AuditLog.HistoriesAreShort | internal/orders/state_machine.go:23-34 | a history has at most four events (depth of the status plus one), enters no status twice and leaves no final status |
| AuditLog.EventsDetermineHistory | internal/orders/repository.go:126-128 | two histories with the same set of events are the same, and so is the status |
| AuditLog.StatusIsTheOneNotLeft | internal/orders/repository.go:126-128 | in any listing of the events, the present status is the one status that is entered and never left |
| AuditLog.OneWinnerOutOfPending | internal/orders/repository.go:191-297 | at most one commit takes a given order out of PENDING |
| AuditLog.BatchesAreDisjoint | internal/db/orders.sql.go:466-483 | two committed worker batches have no order in common |
| Columns.CreateWritesOrder | internal/db/orders.sql.go:46-63 | a create adds one order with exactly the command's columns, PENDING, created and updated at the transaction's time, and changes no other order |
| Columns.CreateWritesLines | internal/db/orders.sql.go:162-179 | the lines stored for the new order are those of the command in order: id, order id, product id, sku, quantity, price and time; every other order keeps its own |
| Columns.UpdateWritesStatusAndTime | internal/db/orders.sql.go:435-442 | cancel, status update and batch write exactly the new status and the transaction's time to the orders they move, and leave every other column, order and line |
| Columns.CommitWritesEvents | internal/db/orders.sql.go:97-120 | a commit appends one event for each moved order and changes no other: id, order, actor, statuses and action of its kind of command, the command's source, the transaction's time |
| Columns.OneLineTotal | internal/orders/service.go:304-322 | the stored total of a one-line order is quantity times unit price |
| Columns.EventsOfAreThose | internal/db/orders.sql.go:241-246 | the events of an order are exactly the stored events with its id, each as often as stored |
| Columns.ItemsOfAreThose | internal/db/orders.sql.go:279-284 | the same for its lines |
| Columns.Char3KeepsTheText | db/migrations/000001_init_oms_schema.up.sql:7 | CHAR(3) stores three characters, the text padded or shortened by spaces only, and refuses exactly a text with anything else beyond the width |
| Integrity.CommittedTablesSatisfySchema | db/migrations/000001_init_oms_schema.up.sql:1-34 | every committed state satisfies primary keys, the unique pair, foreign keys and checks |
| Integrity.StoredTotalsAgreeWithItems | internal/orders/repository.go:133-161 | every order has at least one line and its total is the exact integer sum over its lines; no line is without an order |
| Integrity.CommitEvolves | internal/orders/repository.go:191-297 | a commit changes nothing of an existing order but status and update time, leaves its lines, and only adds items and events |
| Integrity.LaterTablesEvolve | internal/orders/repository.go:191-297 | the same between any two points of the commit history |
| Integrity.OneCreatePerKey | db/migrations/000001_init_oms_schema.up.sql:10 | at most one create per customer and idempotency key ever commits |
| ConcurrentRuns.ServiceRunsAreGood | internal/orders/service.go:96-302 | in every run of service commands all open and committed commands meet what the service guarantees |
| ConcurrentRuns.EveryRunIsConsistent | internal/orders/repository.go:130-322 | after every run of service commands from an empty database: schema, audit log and totals are right |
| ConcurrentRuns.EveryRunHasOneWinner | internal/orders/repository.go:191-297 | over a whole run an order leaves PENDING through one commit, and one create per key commits |
| ConcurrentRuns.FailureLeavesNoTrace | internal/orders/repository.go:305-314 | a failing statement or a rollback changes neither the tables nor any other transaction |
| ConcurrentRuns.RunsEvolve | internal/orders/repository.go:130-322 | between two points of a run orders keep identity, total and lines, and events are only added |
| ConcurrentRuns.LeftPendingStaysLeft | internal/orders/state_machine.go:23-34 | an order that is not PENDING is not PENDING at any later point of a run of service commands, and keeps its owner |
| ConcurrentRuns.InferredUpdateRefinesReadThenValidate | internal/orders/service.go:274-289 | on an existing, unlocked order the single compare-and-set changes the row exactly when read-then-validate would allow it, and then to exactly the target; otherwise it finds no row |
| ConcurrentRuns.NoInferredUpdateMeansNoTransition | internal/orders/service.go:400-402 | where the service refuses to infer, no status could move to the target |
| ConcurrentRuns.NotFoundResolutionIsRight | internal/orders/service.go:377-388 | at any later point of the run the lookup finds no events exactly if the order does not exist then, and in that case it did not exist at the failed update |
| ConcurrentRuns.ConflictMeansPairCommitted | internal/orders/service.go:337-348 | with a fresh order id, a create fails with the idempotency constraint exactly when an order with its pair is committed at that moment, waits exactly when the pair is only reserved, and fails in no other way |
| ConcurrentRuns.ChecksNeverFire | db/migrations/000001_init_oms_schema.up.sql:1-34 | no check, width or foreign key ever stops a service command: a failing guard found no row, a taken key or a negative limit, a failing insert a taken id |
| ConcurrentRuns.LockHoldersNeverWait | internal/orders/repository.go:130-297 | with fresh ids a transaction that holds locks never blocks: its next insert or its commit can take place at once |
| ConcurrentRuns.BlockedWaitsForSomeone | internal/db/orders.sql.go:435-442 | a blocked statement is after a lock or key that some other open transaction holds |
| ConcurrentRuns.WaitersHoldNothing | internal/orders/repository.go:299-322 | with fresh ids a waiting transaction is at its first statement and holds nothing that anybody could wait for |
| ConcurrentRuns.NoCircleOfWaits | internal/orders/repository.go:130-297 | with fresh ids no sessions, at whatever statements, wait for one another in a circle: writers do not deadlock |
| ConcurrentRuns.AnyListingTellsStatus | internal/orders/repository.go:126-128 | in every state the service can bring about, any listing of an order's events has at most four rows and determines the stored status |
| ConcurrentRuns.CancelRunsThrough | internal/orders/repository.go:191-225 | a whole cancel by a fresh session on an unlocked owned PENDING order can run and leaves it CANCELLED |
| ConcurrentRuns.CancelCanLoseTheRace | internal/orders/repository.go:191-225 | in any state, another session's cancel after the read turns a guard that would have gone ahead into a no-rows failure |
| LostRace.RaceIsLost | internal/orders/service.go:188-209 | from the empty database: one session creates an order, another cancels it between BEGIN and the guarded update, and the cancel that read it as PENDING loses |
| LostRace.CancelAgainstRival | internal/orders/service.go:202 | in that run the service's answer is the store's no-rows error |
| LostRace.LeftPendingIsRefused | internal/orders/service.go:198-200 | in a run of the service a cancel of an order that is not PENDING when called is refused, exactly unless its read is cut off |
| LostRace.CancelIsCommitted | internal/orders/service.go:211-226 | from the empty database: a script under which a cancel goes through and its item read is cut off |
| LostRace.CancelCutOffAfterCommit | internal/orders/service.go:217-220 | under that script the service answers with a store error and the order is CANCELLED |
| Server.Database.Interfere | internal/orders/repository.go:299-322 | the prescribed steps of other sessions that are enabled take place, the state stays reachable, the caller's transaction stays as it is |
| Server.PlayedIsRun | internal/orders/repository.go:299-322 | whatever other sessions do between two statements is a run of some of their steps |
| Server.Database.BeginTx | internal/orders/repository.go:300-303 | opens an empty transaction exactly if it is not cut off, and otherwise nothing |
| Server.Database.Rollback | internal/orders/repository.go:305-310 | the transaction is gone, tables and commits unchanged; harmless after a failed statement |
| Server.Database.ExecGuarded | internal/db/orders.sql.go:435-442 | the guard is judged on the rows committed after the interference; success exactly if it is neither cut off, blocked nor failed, with the rows written; an error ends the transaction and is the guard's own unless cut off or blocked |
| Server.Database.CreateOrderItem | internal/db/orders.sql.go:162-179 | for every script: executed exactly if not cut off and free to go ahead on the database as it is found, and then the state is that of the insert with exactly the returned row; otherwise the transaction is over |
| Server.Database.CreateOrderEvent | internal/db/orders.sql.go:97-120 | for every script: executed exactly if not cut off and free to go ahead on the database as it is found, and then the state is that of the insert with exactly the returned row; otherwise the transaction is over |
| Server.Database.QueryOrder | internal/db/orders.sql.go:212-218 | the committed row if the order exists and is the customer's, whatever its status, and otherwise none; fails exactly if cut off |
| Server.Database.QueryEvents | internal/db/orders.sql.go:241-246 | the committed events of the order, as a multiset |
| Server.Database.QueryItems | internal/db/orders.sql.go:279-284 | the committed lines of the order, none standing before one that is older, or of the same time with a smaller id; fails exactly if cut off |
| Server.Database.Commit | internal/orders/repository.go:316-321 | exactly if it is not cut off, the command becomes the newest commit, the tables its atomic effect on the commits before, the rows written are stored; otherwise nothing of it is committed |
| Repository.InsertItems | internal/orders/repository.go:146-161 | for every script: success exactly if all the inserts are executed one after another, with the state they lead to and one row per requested item, in order; on failure the transaction is gone; undisturbed, success exactly if all items fit |
| Repository.InsertEvents | internal/orders/repository.go:273-287 | for every script: success exactly if all the inserts are executed one after another, with one event per moved order and the drawn ids; undisturbed, success exactly if ids are new and the actor is allowed |
| Repository.AuditAndCommit | internal/orders/repository.go:312-322 | for every script: committed exactly if events and commit are executed, and otherwise absent; the row versions it wrote are the ones stored; undisturbed, the log grows by exactly its entry and no transaction stays open |
| Repository.BeginGuarded | internal/orders/repository.go:299-314 | for every script: success exactly if BEGIN and the guard are executed, and then exactly the moved rows are written, each with its id and the new status; a no-rows or idempotency error comes exactly if, without a cut-off, the rows that the guard finds call for it |
| Repository.CreateOrderWithItemsAndAudit | internal/orders/repository.go:130-189 | for every script: success exactly if all statements of the create are executed, leaving the state they lead to, order, items and CREATED event committed as one; what is returned is what is stored, with every column of the command; otherwise nothing is committed; the idempotency error comes exactly if the insert finds only the pair in its way; undisturbed, success exactly if the create is allowed |
| Repository.UpdateOneWithAudit | internal/orders/repository.go:191-262 | the common course of both single-order updates, committed exactly if all its statements are executed, for every script; otherwise nothing is; the returned row is the stored one; no-rows exactly if the guarded update finds no matching row; undisturbed, success exactly if the update is allowed |
| Repository.CancelOrderWithAudit | internal/orders/repository.go:191-225 | the order is CANCELLED with its event, committed exactly if all its statements are executed, for every script; otherwise nothing is; the returned row is the stored one; no-rows exactly if the guarded update finds no matching row; undisturbed, success exactly if the update is allowed |
| Repository.UpdateOrderStatusWithAudit | internal/orders/repository.go:227-262 | the order has the new status with its event, committed exactly if all its statements are executed, for every script; otherwise nothing is; the returned row is the stored one; no-rows exactly if the guarded update finds no matching row; undisturbed, success exactly if the update is allowed |
| Repository.UpdateGoesThrough | internal/orders/repository.go:191-262 | a cancel or status update is committed exactly if none of its four statements is cut off, its guard can go ahead on the database as it finds it, and so can the insert of its audit event |
| Repository.ProcessPendingOrdersBatchWithAudit | internal/orders/repository.go:264-297 | for every script: success exactly if guard, events and commit are executed; the moved orders are the oldest PENDING ones not locked by others where the guard finds the database, PROCESSING with one event each; otherwise nothing happened; undisturbed, the log grows by exactly this batch |
| Repository.GuardAlone | internal/db/orders.sql.go:466-483 | with no other transaction open, a guard goes ahead exactly if its condition holds, and a batch takes the oldest PENDING orders |
| Service.BuildItems | internal/orders/service.go:110-127 | whatever forms of product id the UUID parser takes: every line of the request, in order, with its parsed product id and its own new id; an error exactly if some product id does not parse |
| Service.PrepareCreate | internal/orders/service.go:96-139 | a command is sent exactly for a valid request with a fitting total and parsable product ids, carrying the request's data and the exact total; otherwise the error names each offending field once, or the overflow, or the first product id that does not parse, in this order of precedence |
| Service.CommandIsFitToSend | internal/orders/service.go:129-139 | such a command has lines, positive quantities, non-negative prices, the exact total and a three-letter currency |
| Service.CreateOrder | internal/orders/service.go:96-149 | a command is sent exactly for a sendable request; for every script the order is created whole exactly if all statements are executed, and otherwise not at all; what is returned and stored has every column of the request, line by line, and drawn ids; a conflict is reported exactly if the insert, not cut off, finds an order with the pair committed and its own id free |
| Service.CancelOrder | internal/orders/service.go:188-209 | for every script: success exactly if the unlocked read finds the order cancellable and the transaction goes through, leaving the state it leads to; not found and refused exactly by what the read finds; a no-rows error exactly if the order stopped being cancellable between read and guard; no other error but a store error; undisturbed, the exact effect |
| Service.CancelOrderDetails | internal/orders/service.go:211-226 | for every script: nothing is committed and the answer is an error, or exactly if the cancel goes through it is committed, and then the answer is an error exactly if the item read that follows is cut off |
| Service.ResolveStatusUpdateNoRows | internal/orders/service.go:377-388 | not found exactly if the lookup succeeds and the order does not exist then, refused exactly if it does, interrupted exactly if the lookup is cut off |
| Service.UpdateOrderStatus | internal/orders/service.go:228-255 | for every script: success exactly for a privileged edge whose transaction goes through; not found and refused exactly if the update, not cut off, finds no row and the lookup tells so, or at once outside the graph; a no-rows error never gets out; undisturbed, the exact effect |
| Service.UpdateOrderStatusDetails | internal/orders/service.go:257-272 | for every script: nothing is committed and the answer is an error, or exactly if the update goes through it is committed, and then the answer is an error exactly if the item read that follows is cut off; not found and refused exactly as above |
| Service.UpdateOrderStatusByTarget | internal/orders/service.go:274-289 | the same for the inferred expected status, with a refusal that touches nothing where none can be inferred; undisturbed, success exactly for a privileged actor, an existing order and an edge from its present status to the target, with the exact effect on log and tables |
| Service.ProcessPendingOrdersBatch | internal/orders/service.go:291-302 | for every script a batch commits whole exactly if all its statements are executed, moves the oldest PENDING orders that its guard finds unlocked, at most the limit, and returns the rows as stored; undisturbed, nothing else changes |
| Money.DivisionTestIsExact | internal/orders/service.go:329-332 | for positive factors the division test is the exact overflow test |
| Money.MultiplyIsExact | internal/orders/service.go:324-335 | price >= 0 and quantity > 0: the true product, or the error exactly when it does not fit |
| Money.MultiplyIsExactWhenItFits | internal/orders/service.go:324-335 | for all factors: the answer is the true product exactly when that fits; the error comes exactly for positive factors whose product does not |
| Money.MultiplyIsRightExactlyWhen | internal/orders/service.go:324-335 | the answer is the product or a justified error exactly if both factors are positive or the product fits |
| Money.NegativeFactorsEscapeTheTest | internal/orders/service.go:330-334 | a concrete product that wraps without an error |
| Money.WrappedSumTestIsExact | internal/orders/service.go:313-316 | for non-negative amounts the wrapped sum looks wrong exactly when the true sum does not fit |
| Money.TotalOfConcat | internal/orders/service.go:304-322 | no lines cost nothing, and the total of two lists together is the sum of their totals |
| Money.TotalOfOneLine | internal/orders/service.go:304-322 | one line costs quantity times unit price |
| Money.CalculateTotalCents | internal/orders/service.go:304-322 | for validated lines the exact total if it fits in 64 bits and the overflow error otherwise; for any lines an answer is the total modulo 2^64 |
| Validation.ValidateCreateOrderRequest | internal/orders/validation.go:78-118 | every offending field is reported exactly once, in the order of checking and with its message, and no other field is |
| Validation.CheckItem | internal/orders/validation.go:93-111 | adds exactly the complaints about the four parts of one item |
| Validation.CurrencyCodesAreThreeCapitals | internal/orders/validation.go:85-87 | a currency code is three of the twenty-six capital letters and nothing else |
| Validation.ValidRequestMeetsChecks | internal/orders/validation.go:85-110 | a request without complaints meets the table's item checks and its currency is stored unchanged |
| Text.ValueOfDigits | internal/orders/handler.go:344-346 | the fixed-width digits of a number have that number as value |
| Text.SpacesAreWhiteSpace | internal/orders/validation.go:81 | what trimming removes is exactly the Unicode White_Space characters |
| Text.SplitJoined | internal/orders/handler.go:320-323 | two separator-free texts joined by a separator split into exactly those two |
| Base64Url.DecodeEncode | internal/orders/handler.go:315 | unpadded base64url decoding undoes encoding, for every byte string (section 5 of RFC 4648) |
| Cursor.TimeRoundTrip | internal/orders/handler.go:325 | reading the printed time gives the time back, with any nanoseconds and trailing zeros trimmed (section 5.6 of RFC 3339) |
| Cursor.FractionIsTrimmed | internal/orders/handler.go:344-346 | whole seconds are printed without a fraction and no fraction ends in zero |
| Cursor.UuidRoundTrip | internal/orders/handler.go:330 | reading the printed UUID gives the UUID back (section 4 of RFC 9562) |
| Cursor.CursorRoundTrip | internal/orders/handler.go:310-346 | parsing an encoded cursor gives back exactly its time and id |
| Malformed.OnlyCursorsAreRead | internal/orders/handler.go:315-333 | the modelled reader accepts a cursor only if it decodes to a time text and an id text with one separator between them, and then as that time and id; everything else is refused |
| Malformed.CursorTextIsRead | internal/orders/handler.go:315-341 | and everything that decodes to such a text is accepted as that time and id |
| Malformed.BlankAsksForTheFirstPage | internal/orders/handler.go:311-313 | no cursor is asked for exactly by white space alone |
| Malformed.OnlyTimesAreRead | internal/orders/handler.go:325 | the modelled reader takes a time only from a full date and time of day, with nothing or a point and digits of which the first nine count, and the letter Z |
| Malformed.TimeTextIsRead | internal/orders/handler.go:325 | and from every such text |
| Malformed.OnlyUuidsAreRead | internal/orders/handler.go:330 | the modelled reader takes an id only from the text that is written for it, up to the case of letters |
| Malformed.UuidTextIsRead | internal/orders/handler.go:330 | and from every such text |
| Malformed.SplitIsGlued | internal/orders/handler.go:320 | splitting cuts at every separator and nowhere else |
| Malformed.OnlyEncodingsAreDecoded | internal/orders/handler.go:315 | text is decoded exactly if, line breaks apart, it has only characters of the alphabet and not one symbol too many |
| Malformed.OnlyLineBreaksAreDropped | internal/orders/handler.go:315 | of the characters of a cursor the decoder drops line breaks and no others |
| Pagination.BuildPage | internal/orders/handler.go:194-204 | the page holds the rows in order, and a cursor from the last row exactly if the page is full |
| Pagination.ListOrders | internal/orders/handler.go:166-207 | refuses exactly an unknown status or an unreadable cursor; otherwise the page holds stored orders of the customer, with the status asked for, after the cursor, newest first; one of these is left out only if the page is full and it comes later; a next cursor exactly on a full page, and it reads back as the place of the last row |
| Pagination.QueryGivesNextRows | internal/db/orders.sql.go:314-330 | the query's rows are those next orders, said by columns and without sorting |
| Pagination.FullListIsAll | internal/db/orders.sql.go:314-330 | the one big list is exactly the stored orders of the customer with the status asked for, newest first |
| Pagination.QueryAtPosition | internal/db/orders.sql.go:314-330 | the query behind the cursor of row k answers with the next rows of the one big sorted list |
| Pagination.TextCursorsAreFaithful | internal/orders/handler.go:176-204 | a walk along cursor texts visits the pages of the walk along (created_at, id) pairs |
| Pagination.WalkEqualsFullList | internal/orders/handler.go:148-207 | on a frozen store the walk concatenates to exactly the customer's stored orders with the status asked for, newest first, in floor(n/limit)+1 requests, all but the last page full |
| Pagination.QueryDescends | internal/db/orders.sql.go:373-390 | every answer descends strictly and lies strictly behind the cursor |
| Pagination.NoOrderTwice | internal/orders/handler.go:182-204 | whatever is committed between requests, the walk descends strictly and returns no order twice |
| Pagination.WalkShowsWhatIsAskedFor | internal/orders/handler.go:182-204 | whatever is committed between requests, a walk shows only orders of the customer with the status asked for |
| Pagination.StandingOrdersAreReturned | internal/orders/handler.go:182-204 | a walk that ends has returned every order that was stored, the customer's, and of the status asked for at each of its requests |
| PagingDuringRuns.SnapshotIsReached | internal/orders/repository.go:103-120 | each snapshot of a walk is what the schedules before that request lead to |
| PagingDuringRuns.RunsUnfold | internal/orders/repository.go:103-120 | the states that successive requests see, with any writers' schedules in between, are such evolving snapshots |
| PagingDuringRuns.WalkDuringRun | internal/orders/handler.go:182-204 | all three guarantees for walks between arbitrary schedules of the writers |
| Drain.UndisturbedBatchIsFrontOfQueue | internal/db/orders.sql.go:466-483 | with no PENDING row locked by others, a batch moves exactly the min(limit, n) oldest PENDING orders |
| Drain.BatchLeavesRestOfQueue | internal/orders/repository.go:264-297 | the committed effect of a batch that moved the front of the queue is a queue without its front |
| Drain.RunBatches | internal/orders/worker.go:91-111 | undisturbed runs of the service's batch, one after another: each is one commit that moved and returned the next piece of the queue, in whatever order within the piece, and PENDING is empty afterwards exactly if there were at least ceil(n/limit) runs |
| Drain.WorkerDrainsOldestFirst | internal/orders/repository.go:264-297 | of two of these batches the earlier moved the older orders, each older than each, and exactly the first ceil(n/limit) are not empty |
| Drain.PieceIsEmptyAtTheEnd | internal/orders/repository.go:264-297 | the i-th piece of a queue of n is not empty exactly if i < ceil(n/limit) |
| Drain.QueueIsByAge | internal/db/orders.sql.go:466-483 | the queue is exactly the stored PENDING orders; of two of them the earlier was created earlier, or at the same time with the smaller id |
| BoundedReader.Source.Read | internal/auth/jwt.go:208 | any underlying reader: hands out the next bytes, as few as it likes, and reports the end only at the end |
| BoundedReader.MaxBytesReader.Read | internal/auth/jwt.go:206-228 | one inner read, asking for the buffer but at most one byte beyond the allowance, and for one byte without an allowance; hands out what it gave up to the allowance; "too large" exactly if it gave more, otherwise its own error; the buffer beyond the allowance plus one is untouched |
| BoundedReader.ReadUntilError | internal/auth/jwt.go:201-228 | for any data, short reads and buffer sizes: the consumer gets all that the source handed out up to the limit; the whole data at EOF; "too large" exactly if the source handed out more than the limit; any other error is the source's; without an error there was one read for each buffer |
| WorkerLoop.StepKeepsInv | internal/orders/worker.go:70-88 | every step of loop, runs and canceller keeps: the flag has one holder when set and none when clear, the wait group counts the runs not past Done, ticks = runs started + skipped + the one in hand |
| WorkerLoop.RunsNeverOverlap | internal/orders/worker.go:75-85 | no two runs are ever both before their Store(false), and a running one excludes a loop that is starting another |
| WorkerLoop.FlagIsNeverStuck | internal/orders/worker.go:75-85 | the flag is set exactly when the loop is starting a run or some run will still clear it |
| WorkerLoop.ReturnsOnlyWhenFinished | internal/orders/worker.go:72-74 | when Run has returned, it was cancelled, every started run is past Done, and ticks = runs + skipped |
| WorkerLoop.WaitGroupCanReach | internal/orders/worker.go:80-85 | the wait group can count any number of runs at once |
| WorkerLoop.ShutdownCompletes | internal/orders/worker.go:72-74 | once the loop waits, every sequence of goroutine steps is at most as long as the steps left, is that long exactly if no goroutine has a step left, and then the loop returns |
| WorkerLoop.ShutdownCanComplete | internal/orders/worker.go:72-74 | such a sequence exists |
| WorkerLoop.Worker.TakeOthers | internal/orders/worker.go:81-85 | a step of a started run or of the canceller takes place on the fields exactly if it is enabled, as in the transition system |
| WorkerLoop.Worker.HandleTick | internal/orders/worker.go:75-85 | each tick is skipped exactly if the flag is set when it is tested, and starts one run otherwise |
| WorkerLoop.Worker.Drain | internal/orders/worker.go:72-74 | waits until the wait-group count is zero, for as long as the script lasts, and returns only then |
| WorkerLoop.Worker.Run | internal/orders/worker.go:55-88 | refuses a batch size below one; every turn that does not answer a cancellation takes a tick; stops only when cancelled and every run it started is past Done |
| RoleResolution.ResolveRole | internal/auth/jwt.go:324-348 | role r exactly if the roles named are {r}; no role and several roles are reported exactly when none and at least two are named |
| RoleResolution.NamingIsMembershipIffDistinct | internal/platform/config.go:181-183 | "the role is named" means "its configured value is in the list" for all lists exactly if the three values differ |
| RoleResolution.OnlyMappedValuesMatter | internal/auth/jwt.go:325-342 | order, repetition and unmapped values do not matter |

## Left out

- HTTP routing, response writing, status codes, logging, JSON decoding, environment configuration, the limit parameter's parsing and JWT verification: the model starts from decoded requests and claim lists.
- `GetOrder` and the item reads behind a listed page: they return the rows of `Server.Database.QueryOrder` and `Server.Database.QueryItems` and change nothing.
- PostgreSQL internals: a statement is one atomic step on the committed rows and its own transaction's writes, with row and key locks held to the end of the transaction. A failing statement and the rollback that follows it are one step, and a failed commit is a rollback.
- Waiting: in `Server.Database` a statement that would still have to wait after the other sessions have acted fails as interrupted, as it does when the context ends or PostgreSQL picks it as deadlock victim.
- The order of `RETURNING` rows: the model lists a batch oldest first, while the atomic specification allows any order and `Drain` states batches without one.
- Clock, UUID generator and UUID parser are parameters; `newUuid` gives the successive draws. Transaction names are parameters as well and stand for no program value.
- Actor id, reason and IP address travel as one opaque value from command to event.
- Repository.UpdateOneWithAudit: the cancel and the privileged update share this one body, and all four writers share the event loop, because their code differs only in the command.
- Cursor.CursorRoundTrip: the modelled reader takes UTC times ending in `Z` and 36-character UUIDs, which is all that the encoder writes; numeric offsets, comma fractions, shortened hours and the other UUID forms that Go's parsers accept are not modelled. Years run from 0 to 9999.
- Malformed.OnlyCursorsAreRead: says what the modelled reader refuses; Go's parsers also take the further time and UUID forms of the line above.
- Malformed.OnlyTimesAreRead: says what the modelled reader refuses; Go's also takes numeric offsets, comma fractions and shortened hours.
- Malformed.OnlyUuidsAreRead: says what the modelled reader refuses; the library also takes braced, `urn:` and undashed forms.
- WorkerLoop.Worker.Run: the endless select loop runs for as long as a finite script of the other goroutines' steps lasts; the claims over all interleavings are about the transition system it is proved to follow. Ticker, logging and the nil-service check are left out.
- BoundedReader.ReadUntilError: claims end with the first error; after "too large" a further read of the code's reader may report the end of the data.
- Validation.ValidateCreateOrderRequest: messages are fixed texts and field paths are values instead of strings such as `items[0].sku`.
