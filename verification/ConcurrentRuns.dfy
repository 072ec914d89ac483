/** What every interleaved run of the service's commands guarantees. */
module ConcurrentRuns {
  import opened Wrappers
  import opened Ids
  import opened Clock
  import opened StateMachine
  import opened Schema
  import opened Commands
  import opened AtomicSpec
  import opened Transactions
  import opened Serializability
  import opened AuditLog
  import opened Integrity
  import opened Money

  /** Every guarded statement of the schedule belongs to a command the service sends. */
  ghost predicate FromService(steps: seq<Step>) {
    forall i :: 0 <= i < |steps| && steps[i].Guard? ==> ServiceSends(steps[i].cmd)
  }

  ghost predicate CommandsFromService(s: State) {
    && (forall t :: t in s.open && s.open[t].body.Writing? ==> ServiceSends(s.open[t].body.cmd))
    && AllServiceSent(s.log)
  }

  /** A state that the service can bring about. */
  ghost predicate Good(s: State) {
    Inv(s) && CommandsFromService(s)
  }

  lemma StepKeepsServiceCommands(s: State, step: Step)
    requires CommandsFromService(s) && Enabled(s, step)
    requires step.Guard? ==> ServiceSends(step.cmd)
    ensures CommandsFromService(Next(s, step))
  {
  }

  lemma {:induction false} ServiceRunsAreGood(s: State, steps: seq<Step>)
    requires Good(s) && Runs(s, steps) && FromService(steps)
    ensures Good(After(s, steps))
    decreases |steps|
  {
    if steps != [] {
      StepKeepsInv(s, steps[0]);
      StepKeepsServiceCommands(s, steps[0]);
      ServiceRunsAreGood(Next(s, steps[0]), steps[1..]);
    }
  }

  lemma {:induction false} LogOnlyGrows(s: State, steps: seq<Step>)
    requires Runs(s, steps)
    ensures s.log <= After(s, steps).log
    decreases |steps|
  {
    if steps != [] {
      LogOnlyGrows(Next(s, steps[0]), steps[1..]);
    }
  }

  lemma ServiceLogsFollowGraph(log: seq<Entry>)
    requires AllServiceSent(log)
    ensures AllFollowGraph(log)
  {
    forall i | 0 <= i < |log| ensures FollowsGraph(log[i].cmd) {
      assert ServiceSends(log[i].cmd);
    }
  }

  /** Whatever is committed stays: between two points of a run the tables only evolve. */
  lemma RunsEvolve(s: State, steps: seq<Step>)
    requires Inv(s) && Runs(s, steps)
    ensures Evolves(s.tables, After(s, steps).tables)
  {
    RunKeepsInv(s, steps);
    LogOnlyGrows(s, steps);
    var log := After(s, steps).log;
    LaterTablesEvolve(log, |s.log|);
    assert log[..|s.log|] == s.log;
  }

  /** In every state the service can reach: the schema's constraints hold, the audit log explains every
      order's status, and every total is the sum of its lines. */
  lemma GoodStatesAreConsistent(s: State, id: Uuid)
    requires Good(s)
    ensures SchemaHolds(s.tables) && Explains(s.tables, id) && TotalAgrees(s.tables, id)
  {
    ServiceLogsFollowGraph(s.log);
    CommittedTablesSatisfySchema(s.log);
    AuditLogExplainsState(s.log, id);
    StoredTotalsAgreeWithItems(s.log, id);
  }

  /** The three guarantees over whole concurrent runs from an empty database. */
  lemma EveryRunIsConsistent(steps: seq<Step>, id: Uuid)
    requires Runs(INITIAL, steps) && FromService(steps)
    ensures var tables := After(INITIAL, steps).tables;
            SchemaHolds(tables) && Explains(tables, id) && TotalAgrees(tables, id)
  {
    ServiceRunsAreGood(INITIAL, steps);
    GoodStatesAreConsistent(After(INITIAL, steps), id);
  }

  /** An order that is not PENDING is not PENDING at any later point of a run: a cancel called then reads
      it so, however many sessions act before the read. */
  lemma LeftPendingStaysLeft(s: State, steps: seq<Step>, id: Uuid)
    requires Good(s) && Runs(s, steps) && FromService(steps)
    requires id in s.tables.orders && s.tables.orders[id].status != Pending
    ensures var later := After(s, steps).tables.orders;
            id in later && later[id].status != Pending && later[id].customerId == s.tables.orders[id].customerId
  {
    ServiceRunsAreGood(s, steps);
    RunsEvolve(s, steps);
    LogOnlyGrows(s, steps);
    LeftPendingInLog(s.log, After(s, steps).log, id);
  }

  lemma PastPendingIsNotPending(tables: Tables, id: Uuid)
    requires SchemaHolds(tables)
    ensures PastPending(tables, id) <==> id in tables.orders && tables.orders[id].status != Pending
  {
  }

  lemma {:induction false} LeftPendingInLog(before: seq<Entry>, log: seq<Entry>, id: Uuid)
    requires Legal(before) && Legal(log) && AllServiceSent(log) && before <= log
    requires id in Replay(before).orders && Replay(before).orders[id].status != Pending
    ensures id in Replay(log).orders && Replay(log).orders[id].status != Pending
  {
    CommittedTablesSatisfySchema(before);
    ServiceLogsFollowGraph(log);
    PastPendingIsNotPending(Replay(before), id);
    PastPendingStays(before, log, id);
    CommittedTablesSatisfySchema(log);
    PastPendingIsNotPending(Replay(log), id);
  }

  predicate CreateSamePair(a: Command, b: Command) {
    && a.CreateOrder?
    && b.CreateOrder?
    && a.customerId == b.customerId
    && a.idempotencyKey == b.idempotencyKey
  }

  /** Over a whole concurrent run an order leaves PENDING once, through one commit, and one commit at
      most creates an order for a customer's key. */
  lemma EveryRunHasOneWinner(steps: seq<Step>, i: nat, j: nat, id: Uuid)
    requires Runs(INITIAL, steps) && FromService(steps)
    requires i < |After(INITIAL, steps).log| && j < |After(INITIAL, steps).log|
    ensures var log := After(INITIAL, steps).log;
            && (LeavesPending(log[i], id) && LeavesPending(log[j], id) ==> i == j)
            && (CreateSamePair(log[i].cmd, log[j].cmd) ==> i == j)
  {
    ServiceRunsAreGood(INITIAL, steps);
    var log := After(INITIAL, steps).log;
    ServiceLogsFollowGraph(log);
    if LeavesPending(log[i], id) && LeavesPending(log[j], id) {
      OneWinnerOutOfPending(log, i, j, id);
    }
    if CreateSamePair(log[i].cmd, log[j].cmd) {
      OneCreatePerKey(log, i, j);
    }
  }

  // ---- Single statements in the middle of a run ----

  /** A statement that fails, and a rollback, leave the committed tables and every other transaction as
      they were. */
  lemma FailureLeavesNoTrace(s: State, step: Step, u: TxId)
    requires Enabled(s, step) && !step.Begin? && u != step.t
    requires step.t !in Next(s, step).open && !step.Commit?
    ensures Next(s, step).tables == s.tables && Next(s, step).log == s.log
    ensures u in Next(s, step).open <==> u in s.open
    ensures u in s.open ==> Next(s, step).open[u] == s.open[u]
  {
  }

  /** The service infers the expected status from the target. On a row that nobody else holds, that
      compare-and-set changes the order exactly when the read-then-validate rule would have allowed it,
      and then to exactly the target. */
  lemma InferredUpdateRefinesReadThenValidate(s: State, t: TxId, orderId: Uuid, target: OrderStatus,
                                              actor: ActorType, source: Attribution)
    requires t in s.open && s.open[t].body.Idle?
    requires orderId in s.tables.orders && !RowLocked(s, t, orderId)
    requires ExpectedStatusForTarget(target).Ok?
    ensures var cmd := UpdateStatus(orderId, ExpectedStatusForTarget(target).value, target, actor, source);
            var before := s.tables.orders[orderId];
            && Enabled(s, Guard(t, cmd))
            && (CanTransition(before.status, target) ==>
                  var body := Next(s, Guard(t, cmd)).open[t].body;
                  body.Writing? && body.rows == map[orderId := WithStatus(before, target, s.open[t].now)])
            && (!CanTransition(before.status, target) ==>
                  GuardOutcome(s, t, cmd) == Failed(NoRows) && t !in Next(s, Guard(t, cmd)).open)
  {
    InferredPredecessorIsUnique(s.tables.orders[orderId].status, target);
  }

  /** A target without an inferred predecessor is one that no order could move to. */
  lemma NoInferredUpdateMeansNoTransition(current: OrderStatus, target: OrderStatus)
    requires ExpectedStatusForTarget(target).Err?
    ensures !CanTransition(current, target)
  {
    InferredPredecessorIsUnique(current, target);
  }

  /** After an update that matched no row, the service looks the order's events up at some later point
      of the run. It finds none exactly when the order does not exist then, and in that case the order
      did not exist at the update either. */
  lemma NotFoundResolutionIsRight(s: State, steps: seq<Step>, orderId: Uuid)
    requires Inv(s) && Runs(s, steps)
    ensures var later := After(s, steps).tables;
            && (EventsOf(later.events, orderId) == [] <==> orderId !in later.orders)
            && (EventsOf(later.events, orderId) == [] ==> orderId !in s.tables.orders)
  {
    RunKeepsInv(s, steps);
    OrdersHaveEvents(After(s, steps).log, orderId);
    RunsEvolve(s, steps);
  }

  /** With a fresh order id, a create that does not have to wait reports an idempotency conflict exactly
      when an order with its pair is committed at that moment, and otherwise goes ahead. */
  lemma ConflictMeansPairCommitted(s: State, t: TxId, cmd: Command)
    requires cmd.CreateOrder? && ServiceSends(cmd)
    requires cmd.orderId !in s.tables.orders && !RowLocked(s, t, cmd.orderId)
    ensures GuardOutcome(s, t, cmd) == Failed(UniqueViolation(CustomerIdempotencyKey)) <==>
            PairTaken(s.tables.orders, cmd.customerId, cmd.idempotencyKey)
    ensures GuardOutcome(s, t, cmd) == Blocked <==>
            !PairTaken(s.tables.orders, cmd.customerId, cmd.idempotencyKey)
            && PairReserved(s, t, cmd.customerId, cmd.idempotencyKey)
    ensures GuardOutcome(s, t, cmd).Failed? ==>
              GuardOutcome(s, t, cmd) == Failed(UniqueViolation(CustomerIdempotencyKey))
  {
    TotalIsNonNegative(cmd.items);
  }

  lemma TotalIsNonNegative(items: seq<ItemInput>)
    requires Validated(InputLines(items))
    ensures ExactTotal(InputLines(items)) >= 0
  {
    PartialTotalsGrow(InputLines(items), 0);
  }

  lemma GuardChecksNeverFire(s: State, t: TxId, cmd: Command)
    requires ServiceSends(cmd) && GuardOutcome(s, t, cmd).Failed?
    ensures var error := GuardOutcome(s, t, cmd).error;
            error == NoRows || error.UniqueViolation? || (error == InvalidLimit && cmd.limit < 0)
  {
    if cmd.CreateOrder? {
      TotalIsNonNegative(cmd.items);
    }
  }

  lemma ItemChecksNeverFire(s: State, t: TxId, input: ItemInput, orderId: Uuid)
    requires Good(s) && Enabled(s, InsertItem(t, input, orderId)) && InsertItemOutcome(s, t, input, orderId).Failed?
    ensures InsertItemOutcome(s, t, input, orderId).error == UniqueViolation(ItemsPkey)
  {
    var body := s.open[t].body;
    assert ServiceSends(body.cmd);
    assert InputLines(body.cmd.items)[|body.items|] == Line(input.quantity, input.unitPriceCents);
    assert GuardHolds(s.tables.orders, body.cmd, body.moved);
    assert orderId in body.rows;
  }

  lemma EventChecksNeverFire(s: State, t: TxId, id: Uuid, params: EventParams)
    requires Good(s) && Enabled(s, InsertEvent(t, id, params)) && InsertEventOutcome(s, t, id, params).Failed?
    ensures InsertEventOutcome(s, t, id, params).error == UniqueViolation(EventsPkey)
  {
    var body := s.open[t].body;
    assert ServiceSends(body.cmd);
    GuardRowsKeys(s.tables.orders, body.cmd, body.moved, s.open[t].now);
    assert params.orderId in body.moved;
  }

  /** No check constraint, column width or foreign key ever stops a command of the service: a failed
      statement found no row, hit a unique key, or was given a negative batch limit. */
  lemma ChecksNeverFire(s: State, step: Step)
    requires Good(s) && Enabled(s, step)
    ensures step.Guard? && ServiceSends(step.cmd) && GuardOutcome(s, step.t, step.cmd).Failed? ==>
              var error := GuardOutcome(s, step.t, step.cmd).error;
              error == NoRows || error.UniqueViolation? || (error == InvalidLimit && step.cmd.limit < 0)
    ensures step.InsertItem? && InsertItemOutcome(s, step.t, step.input, step.orderId).Failed? ==>
              InsertItemOutcome(s, step.t, step.input, step.orderId).error == UniqueViolation(ItemsPkey)
    ensures step.InsertEvent? && InsertEventOutcome(s, step.t, step.id, step.params).Failed? ==>
              InsertEventOutcome(s, step.t, step.id, step.params).error == UniqueViolation(EventsPkey)
  {
    match step
    case Guard(t, cmd) =>
      if ServiceSends(cmd) && GuardOutcome(s, t, cmd).Failed? {
        GuardChecksNeverFire(s, t, cmd);
      }
    case InsertItem(t, input, orderId) =>
      if InsertItemOutcome(s, t, input, orderId).Failed? {
        ItemChecksNeverFire(s, t, input, orderId);
      }
    case InsertEvent(t, id, params) =>
      if InsertEventOutcome(s, t, id, params).Failed? {
        EventChecksNeverFire(s, t, id, params);
      }
    case _ =>
  }

  ghost predicate FreshEventId(s: State, id: Uuid) {
    && !HasEvent(s.tables.events, id)
    && forall u :: IsWriting(s, u) ==> !HasEvent(s.open[u].body.events, id)
  }

  ghost predicate FreshItemId(s: State, id: Uuid) {
    && !HasItem(s.tables.items, id)
    && forall u :: IsWriting(s, u) ==> !HasItem(s.open[u].body.items, id)
  }

  lemma NextItemGoesIn(s: State, t: TxId)
    requires Good(s) && IsWriting(s, t) && |s.open[t].body.items| < |ItemsOf(s.open[t].body.cmd)|
    requires FreshItemId(s, ItemsOf(s.open[t].body.cmd)[|s.open[t].body.items|].id)
    ensures var body := s.open[t].body;
            var input := body.cmd.items[|body.items|];
            && Enabled(s, InsertItem(t, input, body.cmd.orderId))
            && InsertItemOutcome(s, t, input, body.cmd.orderId).Done?
  {
    var body := s.open[t].body;
    var input := body.cmd.items[|body.items|];
    assert Sound(s.tables, s.open[t].now, body) && ServiceSends(body.cmd);
    assert InputLines(body.cmd.items)[|body.items|] == Line(input.quantity, input.unitPriceCents);
    GuardRowsKeys(s.tables.orders, body.cmd, body.moved, s.open[t].now);
    assert body.cmd.orderId in body.moved;
    assert !ItemReserved(s, t, input.id);
  }

  lemma NextEventGoesIn(s: State, t: TxId, eventId: Uuid)
    requires Good(s) && IsWriting(s, t) && FreshEventId(s, eventId)
    requires ItemsInserted(s.open[t].body) && |s.open[t].body.events| < |s.open[t].body.moved|
    ensures var body := s.open[t].body;
            var params := AuditEvent(body.cmd, body.moved[|body.events|]);
            && Enabled(s, InsertEvent(t, eventId, params))
            && InsertEventOutcome(s, t, eventId, params).Done?
  {
    var body := s.open[t].body;
    var params := AuditEvent(body.cmd, body.moved[|body.events|]);
    assert Sound(s.tables, s.open[t].now, body) && ServiceSends(body.cmd);
    GuardRowsKeys(s.tables.orders, body.cmd, body.moved, s.open[t].now);
    assert params.orderId in body.moved;
    assert !EventReserved(s, t, eventId);
  }

  /** A transaction that holds locks never waits for another one, so no cycle of waits can form: with
      unused UUIDs its next insert is executed at once, or it can commit. */
  lemma LockHoldersNeverWait(s: State, t: TxId, eventId: Uuid)
    requires Good(s) && IsWriting(s, t) && FreshEventId(s, eventId)
    requires var body := s.open[t].body;
             |body.items| < |ItemsOf(body.cmd)| ==> FreshItemId(s, ItemsOf(body.cmd)[|body.items|].id)
    ensures || Enabled(s, Commit(t))
            || (exists input, orderId ::
                  Enabled(s, InsertItem(t, input, orderId)) && InsertItemOutcome(s, t, input, orderId).Done?)
            || (exists params ::
                  Enabled(s, InsertEvent(t, eventId, params)) && InsertEventOutcome(s, t, eventId, params).Done?)
  {
    var body := s.open[t].body;
    assert ItemsSound(s.tables, s.open[t].now, body) && EventsSound(s.tables, s.open[t].now, body);
    if |body.items| < |ItemsOf(body.cmd)| {
      NextItemGoesIn(s, t);
    } else if |body.events| < |body.moved| {
      NextEventGoesIn(s, t, eventId);
    }
  }

  // ---- No deadlock ----

  /** The statement is one that its transaction may issue next. */
  predicate Issues(s: State, step: Step) {
    match step
    case Guard(t, cmd) => t in s.open && s.open[t].body.Idle?
    case InsertItem(t, input, orderId) => t in s.open && WantsItem(s.open[t].body, input, orderId)
    case InsertEvent(t, id, params) => t in s.open && WantsEvent(s.open[t].body, params)
    case _ => false
  }

  predicate IsBlocked(s: State, step: Step)
    requires Issues(s, step)
  {
    match step
    case Guard(t, cmd) => GuardOutcome(s, t, cmd).Blocked?
    case InsertItem(t, input, orderId) => InsertItemOutcome(s, t, input, orderId).Blocked?
    case InsertEvent(t, id, params) => InsertEventOutcome(s, t, id, params).Blocked?
    case _ => false
  }

  /** Transaction `u` holds a lock or a reserved key that the statement is after. */
  predicate IsInTheWay(s: State, u: TxId, step: Step) {
    && u != step.t && IsWriting(s, u)
    && match step
       case Guard(_, cmd) =>
         || (!cmd.ProcessBatch? && cmd.orderId in s.open[u].body.rows)
         || (cmd.CreateOrder? && ReservesPair(s.open[u].body, cmd.customerId, cmd.idempotencyKey))
       case InsertItem(_, input, _) => HasItem(s.open[u].body.items, input.id)
       case InsertEvent(_, id, _) => HasEvent(s.open[u].body.events, id)
       case _ => false
  }

  /** The statement's transaction has to wait until `u` closes. */
  predicate WaitsFor(s: State, step: Step, u: TxId) {
    Issues(s, step) && IsBlocked(s, step) && IsInTheWay(s, u, step)
  }

  /** Whatever blocks is waiting for some lock holder. */
  lemma BlockedWaitsForSomeone(s: State, step: Step)
    requires Issues(s, step) && IsBlocked(s, step)
    ensures exists u :: WaitsFor(s, step, u)
  {
    var u :| u in s.open && IsInTheWay(s, u, step);
    assert WaitsFor(s, step, u);
  }

  /** The ids that an insert brings are not in use. */
  ghost predicate BringsFreshId(s: State, step: Step) {
    && (step.InsertItem? ==> FreshItemId(s, step.input.id))
    && (step.InsertEvent? ==> FreshEventId(s, step.id))
  }

  /** Only a transaction that has written nothing ever waits, and only for one that has. */
  lemma WaitersHoldNothing(s: State, step: Step, u: TxId)
    requires WaitsFor(s, step, u) && BringsFreshId(s, step)
    ensures step.Guard? && s.open[step.t].body.Idle? && IsWriting(s, u)
    ensures forall other :: !IsInTheWay(s, step.t, other)
  {
  }

  /** Each transaction waits for the next one, and the last for the first. */
  ghost predicate WaitInCircle(s: State, circle: seq<Step>)
    requires circle != []
  {
    && (forall i, j :: 0 <= i < j < |circle| && j == i + 1 ==> WaitsFor(s, circle[i], circle[j].t))
    && WaitsFor(s, circle[|circle| - 1], circle[0].t)
  }

  /** So writers never deadlock, whatever statement each of them is at. */
  lemma NoCircleOfWaits(s: State, circle: seq<Step>)
    requires circle != [] && forall i :: 0 <= i < |circle| ==> BringsFreshId(s, circle[i])
    ensures !WaitInCircle(s, circle)
  {
    if |circle| > 1 && WaitInCircle(s, circle) {
      WaitersHoldNothing(s, circle[0], circle[1].t);
      WaitersHoldNothing(s, circle[|circle| - 1], circle[0].t);
    }
  }

  /** In a state the service can reach, any listing of an order's events, in whatever order, tells its
      status: the one status entered and not left. There are at most four events. */
  lemma AnyListingTellsStatus(s: State, id: Uuid, rows: seq<OrderEvent>, candidate: OrderStatus)
    requires Good(s) && id in s.tables.orders
    requires multiset(rows) == multiset(EventsOf(s.tables.events, id))
    ensures |rows| <= 4
    ensures candidate == s.tables.orders[id].status <==>
            && (exists i :: 0 <= i < |rows| && rows[i].to == Some(candidate))
            && (forall i :: 0 <= i < |rows| ==> rows[i].from != Some(candidate))
  {
    GoodStatesAreConsistent(s, id);
    var path := EventsOf(s.tables.events, id);
    HistoriesAreShort(path, s.tables.orders[id].status);
    assert |rows| == |multiset(rows)| && |path| == |multiset(path)|;
    StatusIsTheOneNotLeft(rows, path, s.tables.orders[id].status, candidate);
  }

  // ---- The lost race of a cancel ----

  /** A whole cancel by session `u`. */
  function CancelBy(u: TxId, now: Timestamp, cmd: Command, eventId: Uuid): seq<Step>
    requires cmd.CancelOrder?
  {
    [Begin(u, now), Guard(u, cmd), InsertEvent(u, eventId, AuditEvent(cmd, cmd.orderId)), Commit(u)]
  }

  lemma StepThen(s: State, step: Step, rest: seq<Step>)
    requires Enabled(s, step) && Runs(Next(s, step), rest)
    ensures Runs(s, [step] + rest) && After(s, [step] + rest) == After(Next(s, step), rest)
  {
    assert ([step] + rest)[1..] == rest;
  }

  lemma FourSteps(s: State, a: Step, b: Step, c: Step, d: Step, s1: State, s2: State, s3: State)
    requires Enabled(s, a) && s1 == Next(s, a) && Enabled(s1, b) && s2 == Next(s1, b)
    requires Enabled(s2, c) && s3 == Next(s2, c) && Enabled(s3, d)
    ensures Runs(s, [a, b, c, d]) && After(s, [a, b, c, d]) == Next(s3, d)
  {
    StepThen(s3, d, []);
    StepThen(s2, c, [d]);
    StepThen(s1, b, [c, d]);
    StepThen(s, a, [b, c, d]);
    assert [a] + [b, c, d] == [a, b, c, d] && [b] + [c, d] == [b, c, d] && [c] + [d] == [c, d] && [d] + [] == [d];
  }

  /** The transaction of a cancel once its guarded update is done, and again once its event is inserted. */
  function CancelTx(orders: map<Uuid, Order>, now: Timestamp, cmd: Command, events: seq<OrderEvent>): Tx
    requires cmd.CancelOrder? && cmd.orderId in orders
  {
    Tx(now, Writing(cmd, [cmd.orderId], map[cmd.orderId := WithStatus(orders[cmd.orderId], Cancelled, now)], [], events))
  }

  lemma CancelBeginsAndGuards(s: State, u: TxId, now: Timestamp, cmd: Command)
    requires cmd.CancelOrder? && u !in s.used && GuardHolds(s.tables.orders, cmd, [cmd.orderId])
    requires forall v :: !RowLocked(s, v, cmd.orderId)
    ensures Enabled(s, Begin(u, now)) && Enabled(Next(s, Begin(u, now)), Guard(u, cmd))
    ensures Next(Next(s, Begin(u, now)), Guard(u, cmd)) ==
            s.(open := s.open[u := CancelTx(s.tables.orders, now, cmd, [])], used := s.used + {u})
  {
    var s1 := Next(s, Begin(u, now));
    assert !RowLocked(s1, u, cmd.orderId) by {
      assert !RowLocked(s, u, cmd.orderId);
      forall v | v in s1.open && v != u && IsWriting(s1, v) ensures cmd.orderId !in s1.open[v].body.rows {
        assert IsWriting(s, v);
      }
    }
    var s2 := Next(s1, Guard(u, cmd));
    assert s2.open[u].body.rows == CancelTx(s.tables.orders, now, cmd, []).body.rows;
    assert s2.open == s.open[u := CancelTx(s.tables.orders, now, cmd, [])];
  }

  lemma CancelInsertsItsEvent(s: State, s2: State, u: TxId, now: Timestamp, cmd: Command, eventId: Uuid)
    requires cmd.CancelOrder? && cmd.orderId in s.tables.orders && FreshEventId(s, eventId)
    requires s2 == s.(open := s.open[u := CancelTx(s.tables.orders, now, cmd, [])], used := s.used + {u})
    ensures var step := InsertEvent(u, eventId, AuditEvent(cmd, cmd.orderId));
            && Enabled(s2, step)
            && Next(s2, step) == s2.(open := s2.open[u := CancelTx(s.tables.orders, now, cmd,
                 [EventRow(AuditEvent(cmd, cmd.orderId), eventId, now)])])
  {
    var params := AuditEvent(cmd, cmd.orderId);
    assert !EventReserved(s2, u, eventId) by {
      forall v | v in s2.open && v != u && IsWriting(s2, v) ensures !HasEvent(s2.open[v].body.events, eventId) {
        assert IsWriting(s, v);
      }
    }
    assert InsertEventOutcome(s2, u, eventId, params).Done?;
    assert [] + [EventRow(params, eventId, now)] == [EventRow(params, eventId, now)];
  }

  /** What a whole cancel by a fresh session does to an unlocked PENDING order of its customer. */
  lemma CancelRunsThrough(s: State, u: TxId, now: Timestamp, cmd: Command, eventId: Uuid)
    requires cmd.CancelOrder? && u !in s.used && s.open.Keys <= s.used
    requires GuardHolds(s.tables.orders, cmd, [cmd.orderId])
    requires (forall v :: !RowLocked(s, v, cmd.orderId)) && FreshEventId(s, eventId)
    ensures Runs(s, CancelBy(u, now, cmd, eventId))
    ensures var after := After(s, CancelBy(u, now, cmd, eventId));
            && after.tables.orders == s.tables.orders[cmd.orderId := WithStatus(s.tables.orders[cmd.orderId], Cancelled, now)]
            && after.open == s.open
  {
    CancelBeginsAndGuards(s, u, now, cmd);
    var s1 := Next(s, Begin(u, now));
    var s2 := s.(open := s.open[u := CancelTx(s.tables.orders, now, cmd, [])], used := s.used + {u});
    CancelInsertsItsEvent(s, s2, u, now, cmd, eventId);
    var insert := InsertEvent(u, eventId, AuditEvent(cmd, cmd.orderId));
    var tx := CancelTx(s.tables.orders, now, cmd, [EventRow(AuditEvent(cmd, cmd.orderId), eventId, now)]);
    var s3 := s2.(open := s2.open[u := tx]);
    FourSteps(s, Begin(u, now), Guard(u, cmd), insert, Commit(u), s1, s2, s3);
    var orders := s.tables.orders;
    assert orders + tx.body.rows == orders[cmd.orderId := WithStatus(orders[cmd.orderId], Cancelled, now)];
    assert s3.open - {u} == s.open;
  }

  /** A cancel that read its order as PENDING can still lose to another session, and its guarded update then
      fails with no rows. The service passes that error on as it is, so such a caller is not told of a
      conflict. */
  lemma CancelCanLoseTheRace(s: State, t: TxId, u: TxId, now: Timestamp, cmd: Command, eventId: Uuid)
    requires Good(s) && cmd.CancelOrder? && u !in s.used && t in s.open && s.open[t].body.Idle?
    requires GuardHolds(s.tables.orders, cmd, [cmd.orderId])
    requires (forall v :: !RowLocked(s, v, cmd.orderId)) && FreshEventId(s, eventId)
    ensures GuardOutcome(s, t, cmd) == Done([cmd.orderId])
    ensures Runs(s, CancelBy(u, now, cmd, eventId))
    ensures GuardOutcome(After(s, CancelBy(u, now, cmd, eventId)), t, cmd) == Failed(NoRows)
  {
    CancelRunsThrough(s, u, now, cmd, eventId);
  }
}
