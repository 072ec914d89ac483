/** The schema's constraints and the stored totals, over every legal log. */
module Integrity {
  import opened Wrappers
  import opened Ids
  import opened StateMachine
  import opened Schema
  import opened Commands
  import opened AtomicSpec
  import opened AuditLog
  import opened Money

  // ---- Constraints ----

  ghost predicate OrderRowsValid(orders: map<Uuid, Order>) {
    forall id :: id in orders ==>
      && orders[id].id == id
      && orders[id].status in {Pending, Processing, Shipped, Delivered, Cancelled}
      && orders[id].totalCents >= 0
      && |orders[id].currency| == 3
  }

  /** UNIQUE (customer_id, idempotency_key) */
  ghost predicate PairsUnique(orders: map<Uuid, Order>) {
    forall a, b | a in orders && b in orders ::
      orders[a].customerId == orders[b].customerId && orders[a].idempotencyKey == orders[b].idempotencyKey ==> a == b
  }

  ghost predicate ItemRowsValid(tables: Tables) {
    && (forall i :: 0 <= i < |tables.items| ==>
          && tables.items[i].orderId in tables.orders
          && ItemAllowed(tables.items[i].quantity, tables.items[i].unitPriceCents))
    && (forall i, j :: 0 <= i < j < |tables.items| ==> tables.items[i].id != tables.items[j].id)
  }

  ghost predicate EventRowsValid(tables: Tables) {
    && (forall i :: 0 <= i < |tables.events| ==>
          && tables.events[i].orderId in tables.orders
          && tables.events[i].actorType in {Customer, Admin, System})
    && (forall i, j :: 0 <= i < j < |tables.events| ==> tables.events[i].id != tables.events[j].id)
  }

  ghost predicate SchemaHolds(tables: Tables) {
    && OrderRowsValid(tables.orders)
    && PairsUnique(tables.orders)
    && ItemRowsValid(tables)
    && EventRowsValid(tables)
  }

  lemma CommitKeepsOrderRows(tables: Tables, e: Entry)
    requires Allowed(tables, e) && OrderRowsValid(tables.orders)
    ensures OrderRowsValid(Apply(tables, e).orders)
  {
  }

  lemma CommitKeepsPairsUnique(tables: Tables, e: Entry)
    requires Allowed(tables, e) && PairsUnique(tables.orders)
    ensures PairsUnique(Apply(tables, e).orders)
  {
    var after := Apply(tables, e).orders;
    forall id | id in after && id in tables.orders
      ensures after[id].customerId == tables.orders[id].customerId
      ensures after[id].idempotencyKey == tables.orders[id].idempotencyKey
    {
    }
    if e.cmd.CreateOrder? {
      forall id | id in tables.orders
        ensures !(tables.orders[id].customerId == e.cmd.customerId
                  && tables.orders[id].idempotencyKey == e.cmd.idempotencyKey)
      {
      }
    }
  }

  lemma CommitKeepsItemRows(tables: Tables, e: Entry)
    requires Allowed(tables, e) && ItemRowsValid(tables)
    ensures ItemRowsValid(Apply(tables, e))
  {
    var items := tables.items + NewItems(e);
    forall i, j | 0 <= i < |tables.items| <= j < |items| ensures items[i].id != items[j].id {
      assert !HasItem(tables.items, ItemsOf(e.cmd)[j - |tables.items|].id);
    }
    forall i | 0 <= i < |tables.items| ensures items[i].orderId in OrdersAfter(tables.orders, e) {
      CommitTouchesOnlyMoved(tables.orders, e, items[i].orderId);
    }
  }

  lemma NewEventsAreValid(tables: Tables, e: Entry, i: nat)
    requires Allowed(tables, e) && i < |e.moved|
    ensures NewEvents(e)[i].orderId in OrdersAfter(tables.orders, e)
    ensures ActorAllowed(NewEvents(e)[i].actorType)
    ensures forall k :: 0 <= k < |tables.events| ==> tables.events[k].id != NewEvents(e)[i].id
  {
    CommitTouchesOnlyMoved(tables.orders, e, e.moved[i]);
    assert !HasEvent(tables.events, e.eventIds[i]);
  }

  lemma CommitKeepsEventRows(tables: Tables, e: Entry)
    requires Allowed(tables, e) && EventRowsValid(tables)
    ensures EventRowsValid(Apply(tables, e))
  {
    var events := tables.events + NewEvents(e);
    var n := |tables.events|;
    forall j | n <= j < |events|
      ensures events[j].orderId in OrdersAfter(tables.orders, e) && ActorAllowed(events[j].actorType)
      ensures forall i :: 0 <= i < n ==> events[i].id != events[j].id
    {
      NewEventsAreValid(tables, e, j - n);
    }
    forall i | 0 <= i < n ensures events[i].orderId in OrdersAfter(tables.orders, e) {
      CommitTouchesOnlyMoved(tables.orders, e, events[i].orderId);
    }
  }

  /** Every committed state satisfies the primary keys, the unique pair, the foreign keys and the checks. */
  lemma {:induction false} CommittedTablesSatisfySchema(log: seq<Entry>)
    requires Legal(log)
    ensures SchemaHolds(Replay(log))
  {
    if log != [] {
      var n := |log| - 1;
      CommittedTablesSatisfySchema(log[..n]);
      CommitKeepsOrderRows(Replay(log[..n]), log[n]);
      CommitKeepsPairsUnique(Replay(log[..n]), log[n]);
      CommitKeepsItemRows(Replay(log[..n]), log[n]);
      CommitKeepsEventRows(Replay(log[..n]), log[n]);
    }
  }

  // ---- Totals ----

  function InputLines(inputs: seq<ItemInput>): (lines: seq<Line>)
    ensures |lines| == |inputs|
  {
    seq(|inputs|, i requires 0 <= i < |inputs| => Line(inputs[i].quantity, inputs[i].unitPriceCents))
  }

  function RowLines(rows: seq<OrderItem>): (lines: seq<Line>)
    ensures |lines| == |rows|
  {
    seq(|rows|, i requires 0 <= i < |rows| => Line(rows[i].quantity, rows[i].unitPriceCents))
  }

  /** What the service guarantees about the commands it hands to the repository. */
  ghost predicate ServiceSends(cmd: Command) {
    match cmd
    case CreateOrder(_, _, _, totalCents, currency, items, _) =>
      && items != []
      && Validated(InputLines(items))
      && totalCents == ExactTotal(InputLines(items))
      && |currency| == 3
    case UpdateStatus(_, expected, next, actorType, _) =>
      CanTransition(expected, next) && (actorType == Admin || actorType == System)
    case _ => true
  }

  ghost predicate AllServiceSent(log: seq<Entry>) {
    forall i :: 0 <= i < |log| ==> ServiceSends(log[i].cmd)
  }

  /** The stored lines of one order, in insertion order. */
  function ItemsOfOrder(items: seq<OrderItem>, id: Uuid): seq<OrderItem> {
    if items == [] then []
    else
      var last := items[|items| - 1];
      ItemsOfOrder(items[..|items| - 1], id) + (if last.orderId == id then [last] else [])
  }

  ghost predicate TotalAgrees(tables: Tables, id: Uuid) {
    if id in tables.orders then
      && ItemsOfOrder(tables.items, id) != []
      && tables.orders[id].totalCents == ExactTotal(RowLines(ItemsOfOrder(tables.items, id)))
    else
      ItemsOfOrder(tables.items, id) == []
  }

  lemma {:induction false} ItemsOfConcat(a: seq<OrderItem>, b: seq<OrderItem>, id: Uuid)
    ensures ItemsOfOrder(a + b, id) == ItemsOfOrder(a, id) + ItemsOfOrder(b, id)
    decreases |b|
  {
    if b == [] {
      assert a + b == a;
    } else {
      var n := |b| - 1;
      ItemsOfConcat(a, b[..n], id);
      assert (a + b)[..|a + b| - 1] == a + b[..n];
    }
  }

  lemma {:induction false} ItemsOfOneOrder(rows: seq<OrderItem>, owner: Uuid, id: Uuid)
    requires forall i :: 0 <= i < |rows| ==> rows[i].orderId == owner
    ensures ItemsOfOrder(rows, id) == if id == owner then rows else []
  {
    if rows != [] {
      var n := |rows| - 1;
      ItemsOfOneOrder(rows[..n], owner, id);
      assert rows == rows[..n] + [rows[n]];
    }
  }

  /** The columns of an order that no statement updates. */
  ghost predicate SameIdentity(a: Order, b: Order) {
    b == a.(status := b.status, updatedAt := b.updatedAt)
  }

  /** A commit adds lines only to the order it creates. */
  lemma CommitAddsLines(items: seq<OrderItem>, e: Entry, id: Uuid)
    ensures ItemsOfOrder(items + NewItems(e), id) ==
            ItemsOfOrder(items, id) + (if e.cmd.CreateOrder? && e.cmd.orderId == id then NewItems(e) else [])
    ensures RowLines(NewItems(e)) == InputLines(ItemsOf(e.cmd))
  {
    ItemsOfConcat(items, NewItems(e), id);
    if e.cmd.CreateOrder? {
      ItemsOfOneOrder(NewItems(e), e.cmd.orderId, id);
    }
  }

  /** Totals are written by the create and by nothing else. */
  lemma CommitKeepsOtherTotals(orders: map<Uuid, Order>, e: Entry, id: Uuid)
    requires GuardHolds(orders, e.cmd, e.moved) && !(e.cmd.CreateOrder? && e.cmd.orderId == id)
    ensures id in OrdersAfter(orders, e) <==> id in orders
    ensures id in orders ==> SameIdentity(orders[id], OrdersAfter(orders, e)[id])
  {
  }

  lemma CommitKeepsTotal(tables: Tables, e: Entry, id: Uuid)
    requires Allowed(tables, e) && ServiceSends(e.cmd) && TotalAgrees(tables, id)
    ensures TotalAgrees(Apply(tables, e), id)
  {
    CommitAddsLines(tables.items, e, id);
    if e.cmd.CreateOrder? && e.cmd.orderId == id {
      assert [] + NewItems(e) == NewItems(e);
    } else {
      CommitKeepsOtherTotals(tables.orders, e, id);
      assert ItemsOfOrder(tables.items, id) + [] == ItemsOfOrder(tables.items, id);
    }
  }

  /** In every committed state each order has at least one line, its total is the exact sum over its
      lines, and there are no lines without an order. */
  lemma {:induction false} StoredTotalsAgreeWithItems(log: seq<Entry>, id: Uuid)
    requires Legal(log) && AllServiceSent(log)
    ensures TotalAgrees(Replay(log), id)
  {
    if log != [] {
      var n := |log| - 1;
      StoredTotalsAgreeWithItems(log[..n], id);
      CommitKeepsTotal(Replay(log[..n]), log[n], id);
    }
  }

  // ---- What never changes ----

  /** From one committed state to a later one: orders stay, keep all but status and update time, keep
      their lines, and events are only added. */
  ghost predicate Evolves(before: Tables, after: Tables) {
    && (forall id :: id in before.orders ==> id in after.orders && SameIdentity(before.orders[id], after.orders[id]))
    && before.events <= after.events
    && before.items <= after.items
    && (forall id :: id in before.orders ==> ItemsOfOrder(after.items, id) == ItemsOfOrder(before.items, id))
  }

  lemma EvolvesTransitively(a: Tables, b: Tables, c: Tables)
    requires Evolves(a, b) && Evolves(b, c)
    ensures Evolves(a, c)
  {
    forall id | id in a.orders
      ensures id in c.orders && SameIdentity(a.orders[id], c.orders[id]) && ItemsOfOrder(c.items, id) == ItemsOfOrder(a.items, id)
    {
      assert id in b.orders;
    }
  }

  lemma CommitEvolves(tables: Tables, e: Entry)
    requires Allowed(tables, e)
    ensures Evolves(tables, Apply(tables, e))
  {
    forall id | id in tables.orders
      ensures id in OrdersAfter(tables.orders, e)
      ensures SameIdentity(tables.orders[id], OrdersAfter(tables.orders, e)[id])
      ensures ItemsOfOrder(Apply(tables, e).items, id) == ItemsOfOrder(tables.items, id)
    {
      CommitKeepsOtherTotals(tables.orders, e, id);
      CommitAddsLines(tables.items, e, id);
    }
  }

  lemma {:induction false} LaterTablesEvolve(log: seq<Entry>, n: nat)
    requires Legal(log) && n <= |log|
    ensures Legal(log[..n]) && Evolves(Replay(log[..n]), Replay(log))
    decreases |log|
  {
    if n == |log| {
      assert log[..n] == log;
    } else {
      var m := |log| - 1;
      LaterTablesEvolve(log[..m], n);
      assert log[..m][..n] == log[..n];
      CommitEvolves(Replay(log[..m]), log[m]);
      EvolvesTransitively(Replay(log[..n]), Replay(log[..m]), Replay(log));
    }
  }

  // ---- Idempotent creation ----

  lemma PairStaysTaken(before: Tables, after: Tables, customerId: Uuid, key: string)
    requires Evolves(before, after) && PairTaken(before.orders, customerId, key)
    ensures PairTaken(after.orders, customerId, key)
  {
    var id :| id in before.orders && before.orders[id].customerId == customerId
              && before.orders[id].idempotencyKey == key;
    assert SameIdentity(before.orders[id], after.orders[id]);
  }

  lemma CreateTakesPair(tables: Tables, e: Entry)
    requires Allowed(tables, e) && e.cmd.CreateOrder?
    ensures !PairTaken(tables.orders, e.cmd.customerId, e.cmd.idempotencyKey)
    ensures PairTaken(Apply(tables, e).orders, e.cmd.customerId, e.cmd.idempotencyKey)
  {
    assert e.cmd.orderId in OrdersAfter(tables.orders, e);
  }

  lemma PairTakenAfterwards(log: seq<Entry>, i: nat)
    requires Legal(log) && i < |log| && log[i].cmd.CreateOrder?
    ensures PairTaken(Replay(log).orders, log[i].cmd.customerId, log[i].cmd.idempotencyKey)
  {
    LegalAt(log, i);
    CreateTakesPair(Replay(log[..i]), log[i]);
    LaterTablesEvolve(log, i + 1);
    PairStaysTaken(Replay(log[..i + 1]), Replay(log), log[i].cmd.customerId, log[i].cmd.idempotencyKey);
  }

  /** At most one create per (customer, key) ever commits. */
  lemma OneCreatePerKey(log: seq<Entry>, i: nat, j: nat)
    requires Legal(log) && i < |log| && j < |log|
    requires log[i].cmd.CreateOrder? && log[j].cmd.CreateOrder?
    requires log[i].cmd.customerId == log[j].cmd.customerId
    requires log[i].cmd.idempotencyKey == log[j].cmd.idempotencyKey
    ensures i == j
  {
    var first, second := if i < j then i else j, if i < j then j else i;
    LegalAt(log, second);
    CreateTakesPair(Replay(log[..second]), log[second]);
    if first < second {
      PairTakenAfterwards(log[..second], first);
    }
  }
}
