/** The reference semantics: write commands executed whole, one at a time. */
module AtomicSpec {
  import opened Wrappers
  import opened Ids
  import opened Clock
  import opened StateMachine
  import opened Schema
  import opened Commands

  /** One executed command: `moved` are the orders it wrote, in event order, and `eventIds` the ids of
      the audit events. The transaction id only names the execution. */
  datatype Entry = Entry(t: TxId, cmd: Command, now: Timestamp, moved: seq<Uuid>, eventIds: seq<Uuid>)

  predicate NoRepeats<T(==)>(s: seq<T>) {
    forall i, j :: 0 <= i < j < |s| ==> s[i] != s[j]
  }

  /** When the row change of a command may happen, and to which orders. */
  predicate GuardHolds(orders: map<Uuid, Order>, cmd: Command, moved: seq<Uuid>) {
    match cmd
    case CreateOrder(orderId, customerId, key, totalCents, currency, _, _) =>
      moved == [orderId] && orderId !in orders && !PairTaken(orders, customerId, key)
      && totalCents >= 0 && ToChar3(currency).Some?
    case CancelOrder(orderId, customerId, _) =>
      moved == [orderId] && orderId in orders
      && orders[orderId].customerId == customerId && orders[orderId].status == Pending
    case UpdateStatus(orderId, expected, next, actorType, _) =>
      moved == [orderId] && orderId in orders && orders[orderId].status == expected && IsValidStatus(next)
    case ProcessBatch(limit, _) =>
      |moved| <= limit && NoRepeats(moved)
      && forall i :: 0 <= i < |moved| ==> moved[i] in orders && orders[moved[i]].status == Pending
  }

  predicate ItemsFit(items: seq<OrderItem>, inputs: seq<ItemInput>) {
    && (forall i :: 0 <= i < |inputs| ==> ItemAllowed(inputs[i].quantity, inputs[i].unitPriceCents))
    && (forall i :: 0 <= i < |inputs| ==> !HasItem(items, inputs[i].id))
    && (forall i, j :: 0 <= i < j < |inputs| ==> inputs[i].id != inputs[j].id)
  }

  predicate EventIdsFit(events: seq<OrderEvent>, ids: seq<Uuid>) {
    && NoRepeats(ids)
    && (forall i :: 0 <= i < |ids| ==> !HasEvent(events, ids[i]))
  }

  predicate Allowed(tables: Tables, e: Entry) {
    && GuardHolds(tables.orders, e.cmd, e.moved)
    && ItemsFit(tables.items, ItemsOf(e.cmd))
    && |e.eventIds| == |e.moved|
    && EventIdsFit(tables.events, e.eventIds)
    && (e.cmd.UpdateStatus? ==> ActorAllowed(e.cmd.actorType))
  }

  function WithStatus(order: Order, status: OrderStatus, now: Timestamp): Order {
    order.(status := status, updatedAt := now)
  }

  /** The order rows after the command: one row added or rewritten for each order it moves. */
  function OrdersAfter(orders: map<Uuid, Order>, e: Entry): map<Uuid, Order>
    requires GuardHolds(orders, e.cmd, e.moved)
  {
    match e.cmd
    case CreateOrder(orderId, customerId, key, totalCents, currency, _, _) =>
      orders[orderId := Order(orderId, customerId, Pending, key, totalCents, ToChar3(currency).value, e.now, e.now)]
    case CancelOrder(orderId, _, _) =>
      orders[orderId := WithStatus(orders[orderId], Cancelled, e.now)]
    case UpdateStatus(orderId, _, next, _, _) =>
      orders[orderId := WithStatus(orders[orderId], next, e.now)]
    case ProcessBatch(_, _) =>
      map id | id in orders :: if id in e.moved then WithStatus(orders[id], Processing, e.now) else orders[id]
  }

  /** The lines of a new order, in request order. */
  function NewItems(e: Entry): (items: seq<OrderItem>)
    ensures |items| == |ItemsOf(e.cmd)|
  {
    if e.cmd.CreateOrder? then
      seq(|e.cmd.items|, i requires 0 <= i < |e.cmd.items| => ItemRow(e.cmd.items[i], e.cmd.orderId, e.now))
    else []
  }

  /** The audit event of the `i`-th order moved. */
  function NewEvent(e: Entry, i: nat): OrderEvent
    requires i < |e.moved| == |e.eventIds|
  {
    var id, orderId := e.eventIds[i], e.moved[i];
    match e.cmd
    case CreateOrder(_, _, _, _, _, _, source) =>
      OrderEvent(id, orderId, Customer, source, None, Some(Pending), ActionCreated, e.now)
    case CancelOrder(_, _, source) =>
      OrderEvent(id, orderId, Customer, source, Some(Pending), Some(Cancelled), ActionCancelled, e.now)
    case UpdateStatus(_, expected, next, actorType, source) =>
      OrderEvent(id, orderId, actorType, source, Some(expected), Some(next), ActionStatusUpdated, e.now)
    case ProcessBatch(_, source) =>
      OrderEvent(id, orderId, System, source, Some(Pending), Some(Processing), ActionWorkerMovedToProcessing, e.now)
  }

  function NewEvents(e: Entry): (events: seq<OrderEvent>)
    requires |e.moved| == |e.eventIds|
    ensures |events| == |e.moved|
    ensures forall i :: 0 <= i < |events| ==> events[i].orderId == e.moved[i] && events[i].id == e.eventIds[i]
  {
    seq(|e.moved|, i requires 0 <= i < |e.moved| => NewEvent(e, i))
  }

  /** The tables after a command that was allowed. */
  function Apply(tables: Tables, e: Entry): Tables
    requires Allowed(tables, e)
  {
    Tables(OrdersAfter(tables.orders, e), tables.items + NewItems(e), tables.events + NewEvents(e))
  }

  /** Every command of the log was allowed by the tables its predecessors left. */
  predicate Legal(log: seq<Entry>)
    decreases |log|, 0
  {
    log == [] ||
    var before := log[..|log| - 1];
    Legal(before) && Allowed(Replay(before), log[|log| - 1])
  }

  /** The tables after running the log from an empty database. */
  function Replay(log: seq<Entry>): Tables
    requires Legal(log)
    decreases |log|, 1
  {
    if log == [] then EMPTY_TABLES
    else Apply(Replay(log[..|log| - 1]), log[|log| - 1])
  }

  lemma ReplayExtends(log: seq<Entry>, e: Entry)
    requires Legal(log) && Allowed(Replay(log), e)
    ensures Legal(log + [e]) && Replay(log + [e]) == Apply(Replay(log), e)
  {
    assert (log + [e])[..|log|] == log;
  }

  lemma {:induction false} PrefixIsLegal(log: seq<Entry>, n: nat)
    requires Legal(log) && n <= |log|
    ensures Legal(log[..n])
    decreases |log|
  {
    if n < |log| {
      var shorter := log[..|log| - 1];
      PrefixIsLegal(shorter, n);
      assert shorter[..n] == log[..n];
    } else {
      assert log[..n] == log;
    }
  }

  lemma LastIsLegal(log: seq<Entry>)
    requires Legal(log) && log != []
    ensures var n := |log| - 1;
            && Legal(log[..n]) && Allowed(Replay(log[..n]), log[n])
            && Replay(log) == Apply(Replay(log[..n]), log[n])
  {
  }

  /** A legal log is legal at every position. */
  lemma {:induction false} LegalAt(log: seq<Entry>, n: nat)
    requires Legal(log) && n < |log|
    ensures Legal(log[..n]) && Allowed(Replay(log[..n]), log[n])
    ensures Legal(log[..n + 1]) && Replay(log[..n + 1]) == Apply(Replay(log[..n]), log[n])
  {
    PrefixesNest(log, n);
    PrefixIsLegal(log, n + 1);
    LastIsLegal(log[..n + 1]);
  }

  lemma PrefixesNest<T>(s: seq<T>, n: nat)
    requires n < |s|
    ensures s[..n + 1][..n] == s[..n] && s[..n + 1][n] == s[n]
  {
  }
}
