/** Every interleaving commits exactly what its committed commands do when run one at a time. */
module Serializability {
  import opened Wrappers
  import opened Ids
  import opened Clock
  import opened StateMachine
  import opened Schema
  import opened Commands
  import opened AtomicSpec
  import opened Transactions

  ghost predicate ItemsSound(tables: Tables, now: Timestamp, body: Body)
    requires body.Writing?
  {
    var inputs := ItemsOf(body.cmd);
    && |body.items| <= |inputs|
    && (forall i :: 0 <= i < |body.items| ==>
          body.cmd.CreateOrder? && body.items[i] == ItemRow(inputs[i], body.cmd.orderId, now))
    && ItemsFit(tables.items, inputs[..|body.items|])
  }

  ghost predicate EventsSound(tables: Tables, now: Timestamp, body: Body)
    requires body.Writing?
  {
    && |body.events| <= |body.moved|
    && (forall i :: 0 <= i < |body.events| ==>
          body.events[i] == EventRow(AuditEvent(body.cmd, body.moved[i]), body.events[i].id, now))
    && EventIdsFit(tables.events, EventIds(body.events))
    && (body.events != [] ==> ActorAllowed(AuditEvent(body.cmd, body.moved[0]).actorType))
  }

  /** The uncommitted writes are those the command would make on the tables as they are now. */
  ghost predicate Sound(tables: Tables, now: Timestamp, body: Body)
    requires body.Writing?
  {
    && GuardHolds(tables.orders, body.cmd, body.moved)
    && body.rows == GuardRows(tables.orders, body.cmd, body.moved, now)
    && ItemsSound(tables, now, body)
    && EventsSound(tables, now, body)
  }

  /** Two transactions hold no lock and no reserved key in common. */
  ghost predicate Apart(a: Body, b: Body)
    requires a.Writing? && b.Writing?
  {
    && a.rows.Keys !! b.rows.Keys
    && (forall x :: HasItem(a.items, x) ==> !HasItem(b.items, x))
    && (forall x :: HasEvent(a.events, x) ==> !HasEvent(b.events, x))
    && (a.cmd.CreateOrder? ==> !ReservesPair(b, a.cmd.customerId, a.cmd.idempotencyKey))
  }

  ghost predicate AllSound(s: State) {
    forall t :: t in s.open && s.open[t].body.Writing? ==> Sound(s.tables, s.open[t].now, s.open[t].body)
  }

  ghost predicate AllApart(s: State) {
    forall t, u :: t in s.open && u in s.open && t != u && s.open[t].body.Writing? && s.open[u].body.Writing? ==>
      Apart(s.open[t].body, s.open[u].body)
  }

  ghost predicate NamesUsed(s: State) {
    && s.open.Keys <= s.used
    && forall i :: 0 <= i < |s.log| ==> s.log[i].t in s.used && s.log[i].t !in s.open
  }

  /** The committed tables are those of a serial run of the commands in commit order. */
  ghost predicate Serial(s: State) {
    Legal(s.log) && s.tables == Replay(s.log)
  }

  ghost predicate Inv(s: State) {
    Serial(s) && AllSound(s) && AllApart(s) && NamesUsed(s)
  }

  // ---- Taking locks ----

  lemma GuardRowsKeys(orders: map<Uuid, Order>, cmd: Command, moved: seq<Uuid>, now: Timestamp)
    requires GuardHolds(orders, cmd, moved)
    ensures forall id :: id in GuardRows(orders, cmd, moved, now) <==> id in moved
  {
  }

  lemma GuardLocksFreeRows(s: State, t: TxId, cmd: Command, u: TxId, now: Timestamp)
    requires GuardOutcome(s, t, cmd).Done? && u != t && IsWriting(s, u)
    requires GuardHolds(s.tables.orders, cmd, GuardOutcome(s, t, cmd).value)
    ensures GuardRows(s.tables.orders, cmd, GuardOutcome(s, t, cmd).value, now).Keys !! s.open[u].body.rows.Keys
  {
    GuardDoneMeansHolds(s, t, cmd);
    var moved := GuardOutcome(s, t, cmd).value;
    GuardRowsKeys(s.tables.orders, cmd, moved, now);
    forall id | id in moved ensures id !in s.open[u].body.rows {
      assert !RowLocked(s, t, id);
    }
  }

  lemma GuardStaysApart(s: State, t: TxId, cmd: Command, u: TxId)
    requires Enabled(s, Guard(t, cmd)) && GuardOutcome(s, t, cmd).Done?
    requires u != t && IsWriting(s, u)
    ensures var body := Next(s, Guard(t, cmd)).open[t].body;
            body.Writing? && Apart(body, s.open[u].body) && Apart(s.open[u].body, body)
  {
    GuardDoneMeansHolds(s, t, cmd);
    GuardLocksFreeRows(s, t, cmd, u, s.open[t].now);
    if cmd.CreateOrder? {
      assert !PairReserved(s, t, cmd.customerId, cmd.idempotencyKey);
      assert !ReservesPair(s.open[u].body, cmd.customerId, cmd.idempotencyKey);
    }
  }

  lemma GuardIsSound(s: State, t: TxId, cmd: Command)
    requires Enabled(s, Guard(t, cmd)) && GuardOutcome(s, t, cmd).Done?
    ensures var tx := Next(s, Guard(t, cmd)).open[t];
            tx.body.Writing? && Sound(s.tables, tx.now, tx.body)
  {
    GuardDoneMeansHolds(s, t, cmd);
  }

  lemma GuardKeepsInv(s: State, t: TxId, cmd: Command)
    requires Inv(s) && Enabled(s, Guard(t, cmd))
    ensures Inv(Next(s, Guard(t, cmd)))
  {
    if GuardOutcome(s, t, cmd).Done? {
      GuardIsSound(s, t, cmd);
      var next := Next(s, Guard(t, cmd));
      assert next.tables == s.tables;
      forall u | u in s.open && u != t && s.open[u].body.Writing?
        ensures Apart(next.open[t].body, s.open[u].body) && Apart(s.open[u].body, next.open[t].body)
      {
        GuardStaysApart(s, t, cmd, u);
      }
      OneChangeKeepsInv(s, t, next);
    }
  }

  /** A step that changes only transaction `t`'s uncommitted writes need only be checked at `t`. */
  lemma OneChangeKeepsInv(s: State, t: TxId, next: State)
    requires Inv(s) && t in s.open && t in next.open
    requires next == s.(open := s.open[t := next.open[t]])
    requires next.open[t].body.Writing? && Sound(s.tables, next.open[t].now, next.open[t].body)
    requires forall u :: u in s.open && u != t && s.open[u].body.Writing? ==>
               Apart(next.open[t].body, s.open[u].body) && Apart(s.open[u].body, next.open[t].body)
    ensures Inv(next)
  {
  }

  // ---- Inserting ----

  lemma HasItemAppend(items: seq<OrderItem>, item: OrderItem, x: Uuid)
    ensures HasItem(items + [item], x) <==> HasItem(items, x) || x == item.id
  {
    if HasItem(items, x) {
      var i :| 0 <= i < |items| && items[i].id == x;
      assert (items + [item])[i].id == x;
    }
    assert (items + [item])[|items|] == item;
  }

  lemma HasEventAppend(events: seq<OrderEvent>, event: OrderEvent, x: Uuid)
    ensures HasEvent(events + [event], x) <==> HasEvent(events, x) || x == event.id
  {
    if HasEvent(events, x) {
      var i :| 0 <= i < |events| && events[i].id == x;
      assert (events + [event])[i].id == x;
    }
    assert (events + [event])[|events|] == event;
  }

  lemma ItemInsertIsSound(tables: Tables, now: Timestamp, body: Body, input: ItemInput, orderId: Uuid)
    requires body.Writing? && ItemsSound(tables, now, body) && WantsItem(body, input, orderId)
    requires ItemAllowed(input.quantity, input.unitPriceCents)
    requires !HasItem(tables.items, input.id) && !HasItem(body.items, input.id)
    ensures ItemsSound(tables, now, body.(items := body.items + [ItemRow(input, orderId, now)]))
  {
    var done := body.cmd.items[..|body.items|];
    assert body.cmd.items[..|body.items| + 1] == done + [input];
    forall i | 0 <= i < |done| ensures done[i].id != input.id {
      assert body.items[i].id == done[i].id;
    }
  }

  lemma EventInsertIsSound(tables: Tables, now: Timestamp, body: Body, id: Uuid, params: EventParams)
    requires body.Writing? && EventsSound(tables, now, body) && WantsEvent(body, params)
    requires ActorAllowed(params.actorType)
    requires !HasEvent(tables.events, id) && !HasEvent(body.events, id)
    ensures EventsSound(tables, now, body.(events := body.events + [EventRow(params, id, now)]))
  {
    var events := body.events + [EventRow(params, id, now)];
    assert EventIds(events) == EventIds(body.events) + [id];
    forall i | 0 <= i < |body.events| ensures EventIds(body.events)[i] != id {
      assert body.events[i].id != id;
    }
    assert AuditEvent(body.cmd, body.moved[0]).actorType == params.actorType;
  }

  lemma ItemInsertStaysApart(a: Body, b: Body, item: OrderItem)
    requires a.Writing? && b.Writing? && Apart(a, b) && Apart(b, a) && !HasItem(b.items, item.id)
    ensures var a' := a.(items := a.items + [item]); Apart(a', b) && Apart(b, a')
  {
    forall x {
      HasItemAppend(a.items, item, x);
    }
  }

  lemma EventInsertStaysApart(a: Body, b: Body, event: OrderEvent)
    requires a.Writing? && b.Writing? && Apart(a, b) && Apart(b, a) && !HasEvent(b.events, event.id)
    ensures var a' := a.(events := a.events + [event]); Apart(a', b) && Apart(b, a')
  {
    forall x {
      HasEventAppend(a.events, event, x);
    }
  }

  lemma InsertItemKeepsInv(s: State, t: TxId, input: ItemInput, orderId: Uuid)
    requires Inv(s) && Enabled(s, InsertItem(t, input, orderId))
    ensures Inv(Next(s, InsertItem(t, input, orderId)))
  {
    if InsertItemOutcome(s, t, input, orderId).Done? {
      var tx := s.open[t];
      ItemInsertIsSound(s.tables, tx.now, tx.body, input, orderId);
      var next := Next(s, InsertItem(t, input, orderId));
      forall u | u in s.open && u != t && s.open[u].body.Writing?
        ensures Apart(next.open[t].body, s.open[u].body) && Apart(s.open[u].body, next.open[t].body)
      {
        assert !ItemReserved(s, t, input.id) && IsWriting(s, u);
        ItemInsertStaysApart(tx.body, s.open[u].body, ItemRow(input, orderId, tx.now));
      }
      OneChangeKeepsInv(s, t, next);
    }
  }

  lemma InsertEventKeepsInv(s: State, t: TxId, id: Uuid, params: EventParams)
    requires Inv(s) && Enabled(s, InsertEvent(t, id, params))
    ensures Inv(Next(s, InsertEvent(t, id, params)))
  {
    if InsertEventOutcome(s, t, id, params).Done? {
      var tx := s.open[t];
      EventInsertIsSound(s.tables, tx.now, tx.body, id, params);
      var next := Next(s, InsertEvent(t, id, params));
      forall u | u in s.open && u != t && s.open[u].body.Writing?
        ensures Apart(next.open[t].body, s.open[u].body) && Apart(s.open[u].body, next.open[t].body)
      {
        assert !EventReserved(s, t, id) && IsWriting(s, u);
        EventInsertStaysApart(tx.body, s.open[u].body, EventRow(params, id, tx.now));
      }
      OneChangeKeepsInv(s, t, next);
    }
  }

  // ---- Committing ----

  function EntryOf(t: TxId, tx: Tx): Entry
    requires tx.body.Writing?
  {
    Entry(t, tx.body.cmd, tx.now, tx.body.moved, EventIds(tx.body.events))
  }

  lemma GuardRowsAreAtomic(tables: Tables, e: Entry)
    requires Allowed(tables, e)
    ensures tables.orders + GuardRows(tables.orders, e.cmd, e.moved, e.now) == Apply(tables, e).orders
  {
  }

  lemma EventsAreAtomic(tables: Tables, t: TxId, tx: Tx)
    requires tx.body.Writing? && EventsSound(tables, tx.now, tx.body) && ReadyToCommit(tx.body)
    requires Allowed(tables, EntryOf(t, tx))
    ensures tables.events + tx.body.events == Apply(tables, EntryOf(t, tx)).events
  {
  }

  /** A transaction that has made all its writes commits exactly its command's atomic effect. */
  lemma CommitIsAtomic(tables: Tables, t: TxId, tx: Tx)
    requires tx.body.Writing? && Sound(tables, tx.now, tx.body) && ReadyToCommit(tx.body)
    ensures Allowed(tables, EntryOf(t, tx))
    ensures Committed(tables, tx.body) == Apply(tables, EntryOf(t, tx))
  {
    var e := EntryOf(t, tx);
    assert ItemsOf(e.cmd)[..|tx.body.items|] == ItemsOf(e.cmd);
    assert Allowed(tables, e);
    GuardRowsAreAtomic(tables, e);
    EventsAreAtomic(tables, t, tx);
    assert tables.items + tx.body.items == Apply(tables, e).items;
  }

  lemma HasItemConcat(a: seq<OrderItem>, b: seq<OrderItem>, x: Uuid)
    ensures HasItem(a + b, x) <==> HasItem(a, x) || HasItem(b, x)
  {
    if HasItem(a, x) {
      var i :| 0 <= i < |a| && a[i].id == x;
      assert (a + b)[i].id == x;
    }
    if HasItem(b, x) {
      var i :| 0 <= i < |b| && b[i].id == x;
      assert (a + b)[|a| + i].id == x;
    }
  }

  lemma HasEventConcat(a: seq<OrderEvent>, b: seq<OrderEvent>, x: Uuid)
    ensures HasEvent(a + b, x) <==> HasEvent(a, x) || HasEvent(b, x)
  {
    if HasEvent(a, x) {
      var i :| 0 <= i < |a| && a[i].id == x;
      assert (a + b)[i].id == x;
    }
    if HasEvent(b, x) {
      var i :| 0 <= i < |b| && b[i].id == x;
      assert (a + b)[|a| + i].id == x;
    }
  }

  /** A guard reads only the rows it moves and, for a create, the pair it takes. */
  lemma GuardReadsOnly(orders: map<Uuid, Order>, orders': map<Uuid, Order>, cmd: Command, moved: seq<Uuid>, now: Timestamp)
    requires GuardHolds(orders, cmd, moved)
    requires forall id :: id in moved ==> (id in orders' <==> id in orders)
    requires forall id :: id in moved && id in orders ==> orders'[id] == orders[id]
    requires cmd.CreateOrder? ==> !PairTaken(orders', cmd.customerId, cmd.idempotencyKey)
    ensures GuardHolds(orders', cmd, moved)
    ensures GuardRows(orders', cmd, moved, now) == GuardRows(orders, cmd, moved, now)
  {
    match cmd
    case CreateOrder(_, _, _, _, _, _, _) => assert cmd.orderId in moved;
    case CancelOrder(_, _, _) => assert cmd.orderId in moved;
    case UpdateStatus(_, _, _, _, _) => assert cmd.orderId in moved;
    case ProcessBatch(_, _) =>
  }

  /** Customers and idempotency keys are written once, by the create. */
  lemma CommitTakesOnlyItsPair(orders: map<Uuid, Order>, cmd: Command, moved: seq<Uuid>, now: Timestamp,
                               customerId: Uuid, key: string)
    requires GuardHolds(orders, cmd, moved)
    requires !PairTaken(orders, customerId, key)
    requires !(cmd.CreateOrder? && cmd.customerId == customerId && cmd.idempotencyKey == key)
    ensures !PairTaken(orders + GuardRows(orders, cmd, moved, now), customerId, key)
  {
    var rows := GuardRows(orders, cmd, moved, now);
    forall id | id in rows
      ensures !(rows[id].customerId == customerId && rows[id].idempotencyKey == key)
    {
      if !cmd.CreateOrder? {
        assert rows[id].customerId == orders[id].customerId && rows[id].idempotencyKey == orders[id].idempotencyKey;
      }
    }
  }

  /** Committing one transaction changes no row that another one's guard read. */
  lemma CommitKeepsOthersGuard(tables: Tables, tx: Tx, other: Tx)
    requires tx.body.Writing? && other.body.Writing?
    requires GuardHolds(tables.orders, tx.body.cmd, tx.body.moved)
    requires tx.body.rows == GuardRows(tables.orders, tx.body.cmd, tx.body.moved, tx.now)
    requires GuardHolds(tables.orders, other.body.cmd, other.body.moved)
    requires other.body.rows == GuardRows(tables.orders, other.body.cmd, other.body.moved, other.now)
    requires Apart(tx.body, other.body) && Apart(other.body, tx.body)
    ensures var orders := Committed(tables, tx.body).orders;
            && GuardHolds(orders, other.body.cmd, other.body.moved)
            && other.body.rows == GuardRows(orders, other.body.cmd, other.body.moved, other.now)
  {
    var orders := Committed(tables, tx.body).orders;
    GuardRowsKeys(tables.orders, other.body.cmd, other.body.moved, other.now);
    if other.body.cmd.CreateOrder? {
      CommitTakesOnlyItsPair(tables.orders, tx.body.cmd, tx.body.moved, tx.now,
                             other.body.cmd.customerId, other.body.cmd.idempotencyKey);
    }
    GuardReadsOnly(tables.orders, orders, other.body.cmd, other.body.moved, other.now);
  }

  lemma CommitKeepsOthersItems(tables: Tables, tx: Tx, other: Tx)
    requires tx.body.Writing? && other.body.Writing?
    requires ItemsSound(tables, other.now, other.body) && Apart(tx.body, other.body)
    ensures ItemsSound(Committed(tables, tx.body), other.now, other.body)
  {
    forall i | 0 <= i < |other.body.items| ensures !HasItem(tables.items + tx.body.items, other.body.items[i].id) {
      HasItemConcat(tables.items, tx.body.items, other.body.items[i].id);
      assert HasItem(other.body.items, other.body.items[i].id);
      assert ItemsOf(other.body.cmd)[..|other.body.items|][i].id == other.body.items[i].id;
    }
  }

  lemma CommitKeepsOthersEvents(tables: Tables, tx: Tx, other: Tx)
    requires tx.body.Writing? && other.body.Writing?
    requires EventsSound(tables, other.now, other.body) && Apart(tx.body, other.body)
    ensures EventsSound(Committed(tables, tx.body), other.now, other.body)
  {
    var ids := EventIds(other.body.events);
    forall i | 0 <= i < |ids| ensures !HasEvent(tables.events + tx.body.events, ids[i]) {
      HasEventConcat(tables.events, tx.body.events, ids[i]);
      assert HasEvent(other.body.events, ids[i]);
    }
  }

  lemma CommitKeepsOthersSound(tables: Tables, tx: Tx, other: Tx)
    requires tx.body.Writing? && other.body.Writing?
    requires Sound(tables, tx.now, tx.body) && Sound(tables, other.now, other.body)
    requires Apart(tx.body, other.body) && Apart(other.body, tx.body)
    ensures Sound(Committed(tables, tx.body), other.now, other.body)
  {
    CommitKeepsOthersGuard(tables, tx, other);
    CommitKeepsOthersItems(tables, tx, other);
    CommitKeepsOthersEvents(tables, tx, other);
  }

  lemma CommitKeepsSerial(s: State, t: TxId)
    requires Serial(s) && Enabled(s, Commit(t)) && Sound(s.tables, s.open[t].now, s.open[t].body)
    ensures Serial(Next(s, Commit(t)))
  {
    CommitIsAtomic(s.tables, t, s.open[t]);
    ReplayExtends(s.log, EntryOf(t, s.open[t]));
  }

  lemma CommitKeepsAllSound(s: State, t: TxId)
    requires AllSound(s) && AllApart(s) && Enabled(s, Commit(t))
    ensures AllSound(Next(s, Commit(t)))
  {
    var next := Next(s, Commit(t));
    forall u | u in next.open && next.open[u].body.Writing?
      ensures Sound(next.tables, next.open[u].now, next.open[u].body)
    {
      CommitKeepsOthersSound(s.tables, s.open[t], s.open[u]);
    }
  }

  lemma CommitKeepsInv(s: State, t: TxId)
    requires Inv(s) && Enabled(s, Commit(t))
    ensures Inv(Next(s, Commit(t)))
  {
    CommitKeepsSerial(s, t);
    CommitKeepsAllSound(s, t);
  }

  // ---- Whole runs ----

  lemma StepKeepsInv(s: State, step: Step)
    requires Inv(s) && Enabled(s, step)
    ensures Inv(Next(s, step))
  {
    match step
    case Begin(_, _) =>
    case Guard(t, cmd) => GuardKeepsInv(s, t, cmd);
    case InsertItem(t, input, orderId) => InsertItemKeepsInv(s, t, input, orderId);
    case InsertEvent(t, id, params) => InsertEventKeepsInv(s, t, id, params);
    case Commit(t) => CommitKeepsInv(s, t);
    case Rollback(_) =>
  }

  lemma {:induction false} RunKeepsInv(s: State, steps: seq<Step>)
    requires Inv(s) && Runs(s, steps)
    ensures Inv(After(s, steps))
    decreases |steps|
  {
    if steps != [] {
      StepKeepsInv(s, steps[0]);
      RunKeepsInv(Next(s, steps[0]), steps[1..]);
    }
  }

  /** Serializability: after any schedule whatever, the committed tables are those of the committed
      commands run whole, one after another, in commit order. Transactions that were rolled back or
      are still open have contributed nothing. */
  lemma CommittedTablesAreSerial(steps: seq<Step>)
    requires Runs(INITIAL, steps)
    ensures var s := After(INITIAL, steps);
            Legal(s.log) && s.tables == Replay(s.log)
  {
    RunKeepsInv(INITIAL, steps);
  }
}
