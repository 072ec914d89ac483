/** What committed commands write, column by column (internal/db/orders.sql.go). */
module Columns {
  import opened Wrappers
  import opened Ids
  import opened Clock
  import opened StateMachine
  import opened Schema
  import opened Commands
  import opened AtomicSpec
  import opened AuditLog
  import opened Money
  import opened Integrity

  // ---- Creates ----

  predicate IsNewOrder(order: Order, cmd: Command, now: Timestamp)
    requires cmd.CreateOrder?
  {
    && order.id == cmd.orderId && order.customerId == cmd.customerId
    && order.status == Pending && order.idempotencyKey == cmd.idempotencyKey
    && order.totalCents == cmd.totalCents
    && (|cmd.currency| == 3 ==> order.currency == cmd.currency)
    && order.createdAt == now && order.updatedAt == now
  }

  /** A create adds one PENDING order with the command's columns and the transaction's time, and changes no other. */
  lemma CreateWritesOrder(tables: Tables, e: Entry)
    requires Allowed(tables, e) && e.cmd.CreateOrder?
    ensures var after := Apply(tables, e).orders;
            && after.Keys == tables.orders.Keys + {e.cmd.orderId} && e.cmd.orderId !in tables.orders
            && (forall id :: id in tables.orders ==> after[id] == tables.orders[id])
            && IsNewOrder(after[e.cmd.orderId], e.cmd, e.now)
  {
    assert e.cmd.currency + Spaces(0) == e.cmd.currency;
  }

  /** The row says what the line of the command says. */
  predicate IsLine(row: OrderItem, input: ItemInput, orderId: Uuid, now: Timestamp) {
    && row.id == input.id && row.orderId == orderId
    && row.productId == input.productId && row.sku == input.sku
    && row.quantity == input.quantity && row.unitPriceCents == input.unitPriceCents
    && row.createdAt == now
  }

  predicate AreLines(rows: seq<OrderItem>, cmd: Command, now: Timestamp)
    requires cmd.CreateOrder?
  {
    |rows| == |cmd.items| && forall i :: 0 <= i < |rows| ==> IsLine(rows[i], cmd.items[i], cmd.orderId, now)
  }

  lemma {:induction false} NoLinesWithoutOrder(items: seq<OrderItem>, id: Uuid)
    requires forall i :: 0 <= i < |items| ==> items[i].orderId != id
    ensures ItemsOfOrder(items, id) == []
  {
    if items != [] {
      NoLinesWithoutOrder(items[..|items| - 1], id);
    }
  }

  lemma NewItemsAreLines(e: Entry)
    requires e.cmd.CreateOrder?
    ensures AreLines(NewItems(e), e.cmd, e.now)
  {
  }

  /** The lines stored for the new order are those of the command, in order; every other order keeps its own. */
  lemma CreateWritesLines(tables: Tables, e: Entry)
    requires Allowed(tables, e) && e.cmd.CreateOrder? && ItemRowsValid(tables)
    ensures AreLines(ItemsOfOrder(Apply(tables, e).items, e.cmd.orderId), e.cmd, e.now)
    ensures ItemsOfOrder(Apply(tables, e).items, e.cmd.orderId) == NewItems(e)
    ensures forall id :: id != e.cmd.orderId ==> ItemsOfOrder(Apply(tables, e).items, id) == ItemsOfOrder(tables.items, id)
  {
    NoLinesWithoutOrder(tables.items, e.cmd.orderId);
    CommitAddsLines(tables.items, e, e.cmd.orderId);
    NewItemsAreLines(e);
    assert [] + NewItems(e) == NewItems(e);
    forall id | id != e.cmd.orderId ensures ItemsOfOrder(Apply(tables, e).items, id) == ItemsOfOrder(tables.items, id) {
      CommitAddsLines(tables.items, e, id);
    }
  }

  lemma CreateIsStored(tables: Tables, e: Entry, after: Tables)
    requires Allowed(tables, e) && e.cmd.CreateOrder? && ItemRowsValid(tables) && after == Apply(tables, e)
    ensures e.cmd.orderId in after.orders && IsNewOrder(after.orders[e.cmd.orderId], e.cmd, e.now)
    ensures ItemsOfOrder(after.items, e.cmd.orderId) == NewItems(e) && AreLines(NewItems(e), e.cmd, e.now)
  {
    CreateWritesOrder(tables, e);
    CreateWritesLines(tables, e);
  }

  /** A one-line order costs quantity times unit price. */
  lemma OneLineTotal(tables: Tables, e: Entry)
    requires Allowed(tables, e) && e.cmd.CreateOrder? && ServiceSends(e.cmd) && |e.cmd.items| == 1
    ensures e.cmd.orderId in Apply(tables, e).orders
    ensures Apply(tables, e).orders[e.cmd.orderId].totalCents == e.cmd.items[0].quantity * e.cmd.items[0].unitPriceCents
  {
    var line := Line(e.cmd.items[0].quantity, e.cmd.items[0].unitPriceCents);
    assert InputLines(e.cmd.items) == [line];
    TotalOfOneLine(line);
  }

  // ---- Status changes ----

  /** The status that the command gives the orders it moves. */
  predicate Gives(cmd: Command, status: OrderStatus) {
    && (cmd.CancelOrder? ==> status == Cancelled)
    && (cmd.UpdateStatus? ==> status == cmd.next)
    && (cmd.ProcessBatch? ==> status == Processing)
  }

  /** Every other command rewrites status and update time of the orders it moves and nothing else. */
  lemma UpdateWritesStatusAndTime(tables: Tables, e: Entry)
    requires Allowed(tables, e) && !e.cmd.CreateOrder?
    ensures var before, after := tables.orders, Apply(tables, e).orders;
            && after.Keys == before.Keys && Apply(tables, e).items == tables.items
            && (forall id :: id in before && id !in e.moved ==> after[id] == before[id])
            && (forall id :: id in e.moved ==>
                  && id in before
                  && Gives(e.cmd, after[id].status) && after[id].updatedAt == e.now
                  && after[id].id == before[id].id && after[id].customerId == before[id].customerId
                  && after[id].idempotencyKey == before[id].idempotencyKey
                  && after[id].totalCents == before[id].totalCents && after[id].currency == before[id].currency
                  && after[id].createdAt == before[id].createdAt)
  {
    assert Apply(tables, e).items == tables.items + [];
  }

  // ---- Audit events ----

  /** Actor, statuses and action that the event of a command records. */
  predicate Records(event: OrderEvent, cmd: Command) {
    match cmd
    case CreateOrder(_, _, _, _, _, _, _) =>
      event.actorType == Customer && event.from == None && event.to == Some(Pending) && event.action == ActionCreated
    case CancelOrder(_, _, _) =>
      && event.actorType == Customer && event.from == Some(Pending) && event.to == Some(Cancelled)
      && event.action == ActionCancelled
    case UpdateStatus(_, expected, next, actorType, _) =>
      && event.actorType == actorType && event.from == Some(expected) && event.to == Some(next)
      && event.action == ActionStatusUpdated
    case ProcessBatch(_, _) =>
      && event.actorType == System && event.from == Some(Pending) && event.to == Some(Processing)
      && event.action == ActionWorkerMovedToProcessing
  }

  /** The event has its drawn id, the source of the command, the transaction's time, and records the change. */
  predicate IsEventFor(event: OrderEvent, e: Entry, id: Uuid, orderId: Uuid) {
    && event.id == id && event.orderId == orderId
    && event.source == e.cmd.source && event.createdAt == e.now
    && Records(event, e.cmd)
  }

  lemma NewEventRecords(e: Entry, i: nat)
    requires i < |e.moved| == |e.eventIds|
    ensures IsEventFor(NewEvents(e)[i], e, e.eventIds[i], e.moved[i])
  {
  }

  /** A commit appends exactly one event for each order it moves, and changes no other event. */
  lemma CommitWritesEvents(tables: Tables, e: Entry)
    requires Allowed(tables, e)
    ensures var before, after := tables.events, Apply(tables, e).events;
            && |after| == |before| + |e.moved| && before <= after
            && forall i :: 0 <= i < |e.moved| ==> IsEventFor(after[|before| + i], e, e.eventIds[i], e.moved[i])
  {
    var after := tables.events + NewEvents(e);
    forall i | 0 <= i < |e.moved|
      ensures IsEventFor(after[|tables.events| + i], e, e.eventIds[i], e.moved[i])
    {
      NewEventRecords(e, i);
      assert after[|tables.events| + i] == NewEvents(e)[i];
    }
  }

  // ---- Listings of one order ----

  /** The events of an order are exactly the stored events with its id, each as often as it is stored. */
  lemma {:induction false} EventsOfAreThose(events: seq<OrderEvent>, id: Uuid, event: OrderEvent)
    ensures multiset(EventsOf(events, id))[event] == if event.orderId == id then multiset(events)[event] else 0
  {
    if events != [] {
      var n := |events| - 1;
      assert events == events[..n] + [events[n]];
      EventsOfAreThose(events[..n], id, event);
    }
  }

  /** The same for its lines. */
  lemma {:induction false} ItemsOfAreThose(items: seq<OrderItem>, id: Uuid, item: OrderItem)
    ensures multiset(ItemsOfOrder(items, id))[item] == if item.orderId == id then multiset(items)[item] else 0
  {
    if items != [] {
      var n := |items| - 1;
      assert items == items[..n] + [items[n]];
      ItemsOfAreThose(items[..n], id, item);
    }
  }

  /** CHAR(3) stores three characters: the text, padded or shortened by spaces only. */
  lemma Char3KeepsTheText(text: string)
    ensures ToChar3(text).None? <==> exists i :: 3 <= i < |text| && text[i] != ' '
    ensures ToChar3(text).Some? ==>
              var stored := ToChar3(text).value;
              && |stored| == 3
              && forall i :: 0 <= i < 3 ==> stored[i] == if i < |text| then text[i] else ' '
  {
    if |text| > 3 {
      if i :| 3 <= i < |text| && text[i] != ' ' {
        assert text[3..][i - 3] != ' ';
      }
      if i :| 0 <= i < |text[3..]| && text[3..][i] != ' ' {
        assert text[i + 3] != ' ';
      }
    }
  }
}
