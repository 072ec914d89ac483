/**
 * Open transactions over the shared tables, statement by statement (internal/orders/repository.go,
 * internal/db/orders.sql.go). Any number of transactions interleave. Each statement sees the
 * committed tables and its own transaction's writes; row locks and reserved unique keys are held
 * from the statement that takes them until the transaction closes.
 */
module Transactions {
  import opened Wrappers
  import opened Ids
  import opened Clock
  import opened StateMachine
  import opened Schema
  import opened Sorting
  import opened Commands
  import opened AtomicSpec

  /** What a transaction has written so far and has not committed. */
  datatype Body =
    | Idle
    | Writing(cmd: Command, moved: seq<Uuid>, rows: map<Uuid, Order>, items: seq<OrderItem>, events: seq<OrderEvent>)

  datatype Tx = Tx(now: Timestamp, body: Body)

  /** `log` records the commits in commit order; nothing in the program reads it. */
  datatype State = State(tables: Tables, open: map<TxId, Tx>, used: set<TxId>, log: seq<Entry>)

  const INITIAL := State(EMPTY_TABLES, map[], {}, [])

  /** A statement waits for another transaction, fails, or is executed. */
  datatype Outcome<+T> = Blocked | Failed(error: DbError) | Done(value: T)

  predicate IsWriting(s: State, u: TxId) {
    u in s.open && s.open[u].body.Writing?
  }

  predicate RowLocked(s: State, t: TxId, id: Uuid) {
    exists u | u in s.open :: u != t && IsWriting(s, u) && id in s.open[u].body.rows
  }

  predicate ReservesPair(body: Body, customerId: Uuid, key: string) {
    body.Writing? && body.cmd.CreateOrder? && body.cmd.customerId == customerId && body.cmd.idempotencyKey == key
  }

  predicate PairReserved(s: State, t: TxId, customerId: Uuid, key: string) {
    exists u | u in s.open :: u != t && ReservesPair(s.open[u].body, customerId, key)
  }

  predicate ItemReserved(s: State, t: TxId, id: Uuid) {
    exists u | u in s.open :: u != t && IsWriting(s, u) && HasItem(s.open[u].body.items, id)
  }

  predicate EventReserved(s: State, t: TxId, id: Uuid) {
    exists u | u in s.open :: u != t && IsWriting(s, u) && HasEvent(s.open[u].body.events, id)
  }

  /** PENDING orders that no other transaction has locked. */
  function Pickable(s: State, t: TxId): (ids: set<Uuid>)
    ensures ids <= s.tables.orders.Keys
  {
    set id | id in PendingIds(s.tables.orders) && !RowLocked(s, t, id)
  }

  // ---- The guarded statement that starts each command ----

  function InsertOrderOutcome(s: State, t: TxId, cmd: Command): Outcome<seq<Uuid>>
    requires cmd.CreateOrder?
  {
    if ToChar3(cmd.currency).None? then Failed(StringTooLong)
    else if cmd.totalCents < 0 then Failed(CheckViolation)
    else if cmd.orderId in s.tables.orders then Failed(UniqueViolation(OrdersPkey))
    else if RowLocked(s, t, cmd.orderId) then Blocked
    else if PairTaken(s.tables.orders, cmd.customerId, cmd.idempotencyKey) then
      Failed(UniqueViolation(CustomerIdempotencyKey))
    else if PairReserved(s, t, cmd.customerId, cmd.idempotencyKey) then Blocked
    else Done([cmd.orderId])
  }

  function CancelPendingOrderOutcome(s: State, t: TxId, cmd: Command): Outcome<seq<Uuid>>
    requires cmd.CancelOrder?
  {
    var orders := s.tables.orders;
    if !(cmd.orderId in orders && orders[cmd.orderId].customerId == cmd.customerId
         && orders[cmd.orderId].status == Pending) then Failed(NoRows)
    else if RowLocked(s, t, cmd.orderId) then Blocked
    else Done([cmd.orderId])
  }

  function UpdateIfStatusMatchesOutcome(s: State, t: TxId, cmd: Command): Outcome<seq<Uuid>>
    requires cmd.UpdateStatus?
  {
    var orders := s.tables.orders;
    if !(cmd.orderId in orders && orders[cmd.orderId].status == cmd.expected) then Failed(NoRows)
    else if RowLocked(s, t, cmd.orderId) then Blocked
    else if !IsValidStatus(cmd.next) then Failed(CheckViolation)
    else Done([cmd.orderId])
  }

  /** `FOR UPDATE SKIP LOCKED`: never waits. */
  function PickPendingOutcome(s: State, t: TxId, cmd: Command): Outcome<seq<Uuid>>
    requires cmd.ProcessBatch?
  {
    if cmd.limit < 0 then Failed(InvalidLimit)
    else Done(Take(OldestFirst(s.tables.orders, Pickable(s, t)), cmd.limit))
  }

  function GuardOutcome(s: State, t: TxId, cmd: Command): Outcome<seq<Uuid>> {
    match cmd
    case CreateOrder(_, _, _, _, _, _, _) => InsertOrderOutcome(s, t, cmd)
    case CancelOrder(_, _, _) => CancelPendingOrderOutcome(s, t, cmd)
    case UpdateStatus(_, _, _, _, _) => UpdateIfStatusMatchesOutcome(s, t, cmd)
    case ProcessBatch(_, _) => PickPendingOutcome(s, t, cmd)
  }

  function StatusWritten(cmd: Command): OrderStatus {
    match cmd
    case CreateOrder(_, _, _, _, _, _, _) => Pending
    case CancelOrder(_, _, _) => Cancelled
    case UpdateStatus(_, _, next, _, _) => next
    case ProcessBatch(_, _) => Processing
  }

  /** The row versions the guarded statement writes. */
  function GuardRows(orders: map<Uuid, Order>, cmd: Command, moved: seq<Uuid>, now: Timestamp): map<Uuid, Order>
    requires GuardHolds(orders, cmd, moved)
  {
    if cmd.CreateOrder? then
      map[cmd.orderId := Order(cmd.orderId, cmd.customerId, Pending, cmd.idempotencyKey, cmd.totalCents,
                               ToChar3(cmd.currency).value, now, now)]
    else
      map id | id in moved :: WithStatus(orders[id], StatusWritten(cmd), now)
  }

  lemma TakenAreElements(keys: map<Uuid, int>, ids: set<Uuid>, all: seq<Uuid>, limit: nat)
    requires SameElements(all, ids) && StrictlyAscending(keys, all)
    ensures NoRepeats(Take(all, limit))
    ensures forall i :: 0 <= i < |Take(all, limit)| ==> Take(all, limit)[i] in ids
    ensures forall i, x :: 0 <= i < |Take(all, limit)| && x in ids && x !in Take(all, limit) ==>
              keys[Take(all, limit)[i]] < keys[x]
  {
    assert forall i :: 0 <= i < |all| ==> all[i] in all;
    var taken := Take(all, limit);
    assert forall j :: 0 <= j < |taken| ==> taken[j] == all[j] && taken[j] in taken;
    forall i, x | 0 <= i < |taken| && x in ids && x !in taken ensures keys[taken[i]] < keys[x] {
      assert x in all;
      var j :| 0 <= j < |all| && all[j] == x;
      assert j >= |taken|;
    }
  }

  /** The worker's statement picks the oldest of the PENDING orders that nobody has locked, `limit` of them
      or all there are: what it leaves is younger than whatever it picks. */
  lemma PickIsOldestPending(s: State, t: TxId, limit: nat)
    ensures var picked := Take(OldestFirst(s.tables.orders, Pickable(s, t)), limit);
            var keys := OldestFirstKeys(s.tables.orders);
            && NoRepeats(picked)
            && (forall i :: 0 <= i < |picked| ==> picked[i] in Pickable(s, t))
            && |picked| == (if |Pickable(s, t)| <= limit then |Pickable(s, t)| else limit)
            && (forall i, x :: 0 <= i < |picked| && x in Pickable(s, t) && x !in picked ==> keys[picked[i]] < keys[x])
  {
    TakenAreElements(OldestFirstKeys(s.tables.orders), Pickable(s, t), OldestFirst(s.tables.orders, Pickable(s, t)), limit);
  }

  /** The orders are stored, PENDING and unlocked, at most `limit`, oldest first; and any other such order is
      left over only because the batch is full, and is younger than all of it. */
  ghost predicate PicksOldestUnlocked(s: State, t: TxId, limit: int, moved: seq<Uuid>) {
    var orders := s.tables.orders;
    && |moved| <= limit && NoRepeats(moved)
    && (forall i :: 0 <= i < |moved| ==>
          moved[i] in orders && orders[moved[i]].status == Pending && !RowLocked(s, t, moved[i]))
    && (forall x :: x in orders && orders[x].status == Pending && !RowLocked(s, t, x) && x !in moved ==>
          |moved| == limit && forall i :: 0 <= i < |moved| ==> Older(orders, moved[i], x))
  }

  /** `FOR UPDATE SKIP LOCKED`: with a limit that is not negative the guarded statement of a batch always goes
      ahead, passing over the rows that others have locked and no other. */
  lemma BatchPicksOldestUnlocked(s: State, t: TxId, cmd: Command)
    requires cmd.ProcessBatch?
    ensures GuardOutcome(s, t, cmd) == Failed(InvalidLimit) <==> cmd.limit < 0
    ensures cmd.limit >= 0 ==>
              && GuardOutcome(s, t, cmd).Done?
              && PicksOldestUnlocked(s, t, cmd.limit, GuardOutcome(s, t, cmd).value)
  {
    if cmd.limit >= 0 {
      PickIsRight(s, t, cmd.limit, Take(OldestFirst(s.tables.orders, Pickable(s, t)), cmd.limit));
    }
  }

  lemma PickIsRight(s: State, t: TxId, limit: nat, moved: seq<Uuid>)
    requires moved == Take(OldestFirst(s.tables.orders, Pickable(s, t)), limit)
    ensures PicksOldestUnlocked(s, t, limit, moved)
  {
    PickIsOldestPending(s, t, limit);
    var orders := s.tables.orders;
    forall x | x in orders && orders[x].status == Pending && !RowLocked(s, t, x) && x !in moved
      ensures |moved| == limit && forall i :: 0 <= i < |moved| ==> Older(orders, moved[i], x)
    {
      assert x in Pickable(s, t);
      LeftOverIsYounger(s, t, limit, moved, x);
    }
    forall i | 0 <= i < |moved|
      ensures moved[i] in orders && orders[moved[i]].status == Pending && !RowLocked(s, t, moved[i])
    {
      assert moved[i] in Pickable(s, t);
    }
  }

  lemma LeftOverIsYounger(s: State, t: TxId, limit: nat, moved: seq<Uuid>, x: Uuid)
    requires moved == Take(OldestFirst(s.tables.orders, Pickable(s, t)), limit) && x in Pickable(s, t) && x !in moved
    ensures |moved| == limit && forall i :: 0 <= i < |moved| ==> Older(s.tables.orders, moved[i], x)
  {
    var orders := s.tables.orders;
    PickIsOldestPending(s, t, limit);
    assert x in OldestFirst(orders, Pickable(s, t));
    forall i | 0 <= i < |moved| ensures Older(orders, moved[i], x) {
      assert moved[i] in Pickable(s, t);
      SortKeyIsRowOrder(orders, moved[i], x);
    }
  }

  lemma PickHoldsGuard(s: State, t: TxId, cmd: Command)
    requires cmd.ProcessBatch? && cmd.limit >= 0
    ensures var picked := Take(OldestFirst(s.tables.orders, Pickable(s, t)), cmd.limit);
            && GuardHolds(s.tables.orders, cmd, picked)
            && forall i :: 0 <= i < |picked| ==> !RowLocked(s, t, picked[i])
  {
    PickIsOldestPending(s, t, cmd.limit);
  }

  lemma GuardDoneMeansHolds(s: State, t: TxId, cmd: Command)
    ensures GuardOutcome(s, t, cmd).Done? ==> GuardHolds(s.tables.orders, cmd, GuardOutcome(s, t, cmd).value)
    ensures GuardOutcome(s, t, cmd).Done? ==>
              forall i :: 0 <= i < |GuardOutcome(s, t, cmd).value| ==>
                !RowLocked(s, t, GuardOutcome(s, t, cmd).value[i])
  {
    if cmd.ProcessBatch? && cmd.limit >= 0 {
      PickHoldsGuard(s, t, cmd);
    }
  }

  // ---- The inserts that follow ----

  function InsertItemOutcome(s: State, t: TxId, input: ItemInput, orderId: Uuid): Outcome<()>
    requires IsWriting(s, t)
  {
    var body := s.open[t].body;
    if !ItemAllowed(input.quantity, input.unitPriceCents) then Failed(CheckViolation)
    else if HasItem(s.tables.items, input.id) || HasItem(body.items, input.id) then Failed(UniqueViolation(ItemsPkey))
    else if ItemReserved(s, t, input.id) then Blocked
    else if orderId !in s.tables.orders && orderId !in body.rows then Failed(ForeignKeyViolation)
    else Done(())
  }

  function InsertEventOutcome(s: State, t: TxId, id: Uuid, params: EventParams): Outcome<()>
    requires IsWriting(s, t)
  {
    var body := s.open[t].body;
    if !ActorAllowed(params.actorType) then Failed(CheckViolation)
    else if HasEvent(s.tables.events, id) || HasEvent(body.events, id) then Failed(UniqueViolation(EventsPkey))
    else if EventReserved(s, t, id) then Blocked
    else if params.orderId !in s.tables.orders && params.orderId !in body.rows then Failed(ForeignKeyViolation)
    else Done(())
  }

  // ---- Steps ----

  datatype Step =
    | Begin(t: TxId, now: Timestamp)
    | Guard(t: TxId, cmd: Command)
    | InsertItem(t: TxId, input: ItemInput, orderId: Uuid)
    | InsertEvent(t: TxId, id: Uuid, params: EventParams)
    | Commit(t: TxId)
    | Rollback(t: TxId)

  /** The repository inserts a new order's items first, in request order. */
  predicate WantsItem(body: Body, input: ItemInput, orderId: Uuid) {
    && body.Writing?
    && body.cmd.CreateOrder?
    && |body.items| < |body.cmd.items|
    && input == body.cmd.items[|body.items|]
    && orderId == body.cmd.orderId
  }

  predicate ItemsInserted(body: Body) {
    body.Writing? && |body.items| == |ItemsOf(body.cmd)|
  }

  /** Then one audit event for every order it wrote. */
  predicate WantsEvent(body: Body, params: EventParams) {
    && ItemsInserted(body)
    && |body.events| < |body.moved|
    && params == AuditEvent(body.cmd, body.moved[|body.events|])
  }

  predicate ReadyToCommit(body: Body) {
    ItemsInserted(body) && |body.events| == |body.moved|
  }

  /** The step may happen now: the repository code issues it next, and it need not wait. */
  predicate Enabled(s: State, step: Step) {
    match step
    case Begin(t, _) => t !in s.used
    case Guard(t, cmd) => t in s.open && s.open[t].body.Idle? && !GuardOutcome(s, t, cmd).Blocked?
    case InsertItem(t, input, orderId) =>
      t in s.open && WantsItem(s.open[t].body, input, orderId) && !InsertItemOutcome(s, t, input, orderId).Blocked?
    case InsertEvent(t, id, params) =>
      t in s.open && WantsEvent(s.open[t].body, params) && !InsertEventOutcome(s, t, id, params).Blocked?
    case Commit(t) => t in s.open && ReadyToCommit(s.open[t].body)
    case Rollback(t) => t in s.open
  }

  /** Closing without commit drops the transaction's writes and locks. */
  function Close(s: State, t: TxId): State {
    s.(open := s.open - {t})
  }

  function EventIds(events: seq<OrderEvent>): (ids: seq<Uuid>)
    ensures |ids| == |events| && forall i :: 0 <= i < |ids| ==> ids[i] == events[i].id
  {
    seq(|events|, i requires 0 <= i < |events| => events[i].id)
  }

  function Committed(tables: Tables, body: Body): Tables
    requires body.Writing?
  {
    Tables(tables.orders + body.rows, tables.items + body.items, tables.events + body.events)
  }

  function Next(s: State, step: Step): State
    requires Enabled(s, step)
  {
    match step
    case Begin(t, now) => s.(open := s.open[t := Tx(now, Idle)], used := s.used + {t})
    case Guard(t, cmd) =>
      var outcome := GuardOutcome(s, t, cmd);
      if outcome.Failed? then Close(s, t)
      else
        GuardDoneMeansHolds(s, t, cmd);
        var rows := GuardRows(s.tables.orders, cmd, outcome.value, s.open[t].now);
        s.(open := s.open[t := s.open[t].(body := Writing(cmd, outcome.value, rows, [], []))])
    case InsertItem(t, input, orderId) =>
      var tx := s.open[t];
      if InsertItemOutcome(s, t, input, orderId).Failed? then Close(s, t)
      else s.(open := s.open[t := tx.(body := tx.body.(items := tx.body.items + [ItemRow(input, orderId, tx.now)]))])
    case InsertEvent(t, id, params) =>
      var tx := s.open[t];
      if InsertEventOutcome(s, t, id, params).Failed? then Close(s, t)
      else s.(open := s.open[t := tx.(body := tx.body.(events := tx.body.events + [EventRow(params, id, tx.now)]))])
    case Commit(t) =>
      var tx := s.open[t];
      var entry := Entry(t, tx.body.cmd, tx.now, tx.body.moved, EventIds(tx.body.events));
      Close(s, t).(tables := Committed(s.tables, tx.body), log := s.log + [entry])
    case Rollback(t) => Close(s, t)
  }

  /** A schedule: each step is enabled where it is taken. */
  predicate Runs(s: State, steps: seq<Step>)
    decreases |steps|
  {
    steps == [] || (Enabled(s, steps[0]) && Runs(Next(s, steps[0]), steps[1..]))
  }

  function After(s: State, steps: seq<Step>): State
    requires Runs(s, steps)
    decreases |steps|
  {
    if steps == [] then s else After(Next(s, steps[0]), steps[1..])
  }

  lemma {:induction false} RunsConcat(s: State, first: seq<Step>, second: seq<Step>)
    requires Runs(s, first) && Runs(After(s, first), second)
    ensures Runs(s, first + second) && After(s, first + second) == After(After(s, first), second)
    decreases |first|
  {
    if first == [] {
      assert first + second == second;
    } else {
      RunsConcat(Next(s, first[0]), first[1..], second);
      assert (first + second)[1..] == first[1..] + second;
    }
  }
}
