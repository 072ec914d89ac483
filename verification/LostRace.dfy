/** A cancel that loses a race, from the empty database to the service's answer (internal/orders/service.go:188-209). */
module LostRace {
  import opened Wrappers
  import opened Ids
  import opened Clock
  import opened StateMachine
  import opened Schema
  import opened Commands
  import opened AtomicSpec
  import opened Transactions
  import opened Serializability
  import opened Integrity
  import opened ConcurrentRuns
  import opened Server
  import opened Repository
  import opened Service

  /** A create of one line that the database's checks let through. */
  predicate IsOneLineCreate(cmd: Command) {
    && cmd.CreateOrder? && |cmd.items| == 1
    && ItemAllowed(cmd.items[0].quantity, cmd.items[0].unitPriceCents)
    && cmd.totalCents >= 0 && ToChar3(cmd.currency).Some?
  }

  /** A whole create by session `u`. */
  function CreateBy(u: TxId, now: Timestamp, cmd: Command, eventId: Uuid): seq<Step>
    requires IsOneLineCreate(cmd)
  {
    [Begin(u, now), Guard(u, cmd), InsertItem(u, cmd.items[0], cmd.orderId),
     InsertEvent(u, eventId, AuditEvent(cmd, cmd.orderId)), Commit(u)]
  }

  function NewOrder(cmd: Command, now: Timestamp): Order
    requires IsOneLineCreate(cmd)
  {
    Order(cmd.orderId, cmd.customerId, Pending, cmd.idempotencyKey, cmd.totalCents, ToChar3(cmd.currency).value, now, now)
  }

  /** Session `u` alone, having written these items and events. */
  function Creating(u: TxId, now: Timestamp, cmd: Command, items: seq<OrderItem>, events: seq<OrderEvent>): State
    requires IsOneLineCreate(cmd)
  {
    var body := Writing(cmd, [cmd.orderId], map[cmd.orderId := NewOrder(cmd, now)], items, events);
    INITIAL.(open := map[u := Tx(now, body)], used := {u})
  }

  lemma CreateIsGuarded(u: TxId, now: Timestamp, cmd: Command)
    requires IsOneLineCreate(cmd)
    ensures Enabled(INITIAL, Begin(u, now)) && Enabled(Next(INITIAL, Begin(u, now)), Guard(u, cmd))
    ensures Next(Next(INITIAL, Begin(u, now)), Guard(u, cmd)) == Creating(u, now, cmd, [], [])
  {
    var begun := Next(INITIAL, Begin(u, now));
    assert GuardOutcome(begun, u, cmd) == Done([cmd.orderId]);
    assert begun.open == map[u := Tx(now, Idle)];
  }

  lemma CreateInserts(u: TxId, now: Timestamp, cmd: Command, eventId: Uuid)
    requires IsOneLineCreate(cmd)
    ensures var item := ItemRow(cmd.items[0], cmd.orderId, now);
            var params := AuditEvent(cmd, cmd.orderId);
            var s2, s3 := Creating(u, now, cmd, [], []), Creating(u, now, cmd, [item], []);
            && Enabled(s2, InsertItem(u, cmd.items[0], cmd.orderId))
            && Next(s2, InsertItem(u, cmd.items[0], cmd.orderId)) == s3
            && Enabled(s3, InsertEvent(u, eventId, params))
            && Next(s3, InsertEvent(u, eventId, params)) ==
               Creating(u, now, cmd, [item], [EventRow(params, eventId, now)])
  {
    var item := ItemRow(cmd.items[0], cmd.orderId, now);
    var s2, s3 := Creating(u, now, cmd, [], []), Creating(u, now, cmd, [item], []);
    assert InsertItemOutcome(s2, u, cmd.items[0], cmd.orderId).Done?;
    assert [] + [item] == [item];
    assert s2.open[u := s3.open[u]] == s3.open;
    var event := EventRow(AuditEvent(cmd, cmd.orderId), eventId, now);
    var s4 := Creating(u, now, cmd, [item], [event]);
    assert InsertEventOutcome(s3, u, eventId, AuditEvent(cmd, cmd.orderId)).Done?;
    assert [] + [event] == [event] && s3.open[u := s4.open[u]] == s4.open;
  }

  /** A create in the empty database runs through and leaves exactly its order. */
  lemma CreateRunsThrough(u: TxId, now: Timestamp, cmd: Command, eventId: Uuid)
    requires IsOneLineCreate(cmd)
    ensures Runs(INITIAL, CreateBy(u, now, cmd, eventId))
    ensures var after := After(INITIAL, CreateBy(u, now, cmd, eventId));
            && after.tables.orders == map[cmd.orderId := NewOrder(cmd, now)]
            && |after.tables.events| == 1 && after.tables.events[0].id == eventId
            && after.open == map[] && after.used == {u}
  {
    var params := AuditEvent(cmd, cmd.orderId);
    CreateIsGuarded(u, now, cmd);
    CreateInserts(u, now, cmd, eventId);
    var item := ItemRow(cmd.items[0], cmd.orderId, now);
    var s1 := Next(INITIAL, Begin(u, now));
    var s2, s3 := Creating(u, now, cmd, [], []), Creating(u, now, cmd, [item], []);
    var s4 := Creating(u, now, cmd, [item], [EventRow(params, eventId, now)]);
    var insert := InsertItem(u, cmd.items[0], cmd.orderId);
    var rest := [insert, InsertEvent(u, eventId, params), Commit(u)];
    StepThen(s4, Commit(u), []);
    StepThen(s3, InsertEvent(u, eventId, params), [Commit(u)]);
    StepThen(s2, insert, [InsertEvent(u, eventId, params), Commit(u)]);
    assert [insert] + [InsertEvent(u, eventId, params), Commit(u)] == rest;
    StepThen(s1, Guard(u, cmd), rest);
    StepThen(INITIAL, Begin(u, now), [Guard(u, cmd)] + rest);
    assert [Begin(u, now)] + ([Guard(u, cmd)] + rest) == CreateBy(u, now, cmd, eventId);
    assert s4.open - {u} == map[];
  }

  /** Before the read a session creates the order; between BEGIN and the guarded update another one cancels it. */
  function RaceScript(create: Command, cancel: Command, now: Timestamp, u: TxId, v: TxId, ids: (Uuid, Uuid)): seq<Interlude>
    requires IsOneLineCreate(create) && cancel.CancelOrder?
  {
    [Interlude(CreateBy(u, now, create, ids.0), false), Interlude([], false),
     Interlude(CancelBy(v, now, cancel, ids.1), false)]
  }

  /** What the read and what the guarded update find when the script is played from the empty database. */
  lemma RaceIsLost(create: Command, cancel: Command, now: Timestamp, t: TxId, u: TxId, v: TxId, ids: (Uuid, Uuid))
    requires IsOneLineCreate(create) && cancel.CancelOrder?
    requires cancel.orderId == create.orderId && cancel.customerId == create.customerId
    requires t != u && t != v && u != v && ids.0 != ids.1
    ensures LosesRace(INITIAL, RaceScript(create, cancel, now, u, v, ids), t, now, create.orderId, create.customerId)
  {
    var script := RaceScript(create, cancel, now, u, v, ids);
    CreateRunsThrough(u, now, create, ids.0);
    PlayedIsAfter(t, INITIAL, script[0].steps);
    var read := Played(t, INITIAL, NextSteps(script));
    assert read.tables.orders == map[create.orderId := NewOrder(create, now)];
    var begun := Begun(read, t, now);
    assert begun.tables == read.tables && begun.open == map[t := Tx(now, Idle)] && begun.used == {t, u};
    assert Rest(Rest(script, 1), 1) == [script[2]];
    RivalRunsThrough(begun, t, v, now, cancel, ids.1);
  }

  /** While `t` has only begun, another session cancels the order. */
  lemma RivalRunsThrough(s: State, t: TxId, v: TxId, now: Timestamp, cancel: Command, eventId: Uuid)
    requires cancel.CancelOrder? && v != t && v !in s.used && t in s.used && s.open == map[t := Tx(now, Idle)]
    requires Cancellable(s.tables.orders, cancel.orderId, cancel.customerId) && !HasEvent(s.tables.events, eventId)
    ensures !Cancellable(Played(t, s, CancelBy(v, now, cancel, eventId)).tables.orders, cancel.orderId, cancel.customerId)
  {
    CancelRunsThrough(s, v, now, cancel, eventId);
    PlayedIsAfter(t, s, CancelBy(v, now, cancel, eventId));
  }

  /** Run through: the owner's cancel of an order that was PENDING when it was read is answered with the
      store's no-rows error. */
  method CancelAgainstRival(create: Command, source: Attribution, now: Timestamp, newUuid: nat -> Uuid)
    returns (r: Result<Order, ServiceError>)
    requires IsOneLineCreate(create)
    ensures r == Err(Store(NoRows))
  {
    var cancel := Command.CancelOrder(create.orderId, create.customerId, source);
    var db := new Database(RaceScript(create, cancel, now, 1, 2, (1, 2)));
    RaceIsLost(create, cancel, now, 3, 1, 2, (1, 2));
    r := Service.CancelOrder(db, 3, now, create.orderId, create.customerId, source, newUuid);
  }

  // ---- The promise that holds ----

  /** A cancel of an order that is not PENDING when the call is made is refused, whatever other sessions of the
      service do before the read, unless the read itself is cut off. */
  lemma LeftPendingIsRefused(s: State, script: seq<Interlude>, t: TxId, orderId: Uuid, customerId: Uuid)
    requires Good(s) && FromService(NextSteps(script))
    requires OwnedOrder(s.tables.orders, orderId, customerId).Some? && s.tables.orders[orderId].status != Pending
    ensures IsRefused(s, script, t, orderId, customerId) <==> !NextFault(script)
  {
    var steps := NextSteps(script);
    PlayedIsRun(t, s, steps);
    var taken := Taken(t, s, steps);
    forall i | 0 <= i < |taken| && taken[i].Guard? ensures ServiceSends(taken[i].cmd) {
      assert taken[i] in steps;
    }
    LeftPendingStaysLeft(s, taken, orderId);
  }

  // ---- Committed, and answered with an error ----

  lemma CancelSucceeds(s: State, t: TxId, now: Timestamp, cmd: Command, eventId: Uuid)
    requires cmd.CancelOrder? && t !in s.used && GuardHolds(s.tables.orders, cmd, [cmd.orderId])
    requires (forall v :: !RowLocked(s, v, cmd.orderId)) && FreshEventId(s, eventId)
    ensures AllSucceed(s, CancelBy(t, now, cmd, eventId))
  {
    CancelBeginsAndGuards(s, t, now, cmd);
    var s1 := Next(s, Begin(t, now));
    var s2 := s.(open := s.open[t := CancelTx(s.tables.orders, now, cmd, [])], used := s.used + {t});
    CancelInsertsItsEvent(s, s2, t, now, cmd, eventId);
    var insert := InsertEvent(t, eventId, AuditEvent(cmd, cmd.orderId));
    var tx := CancelTx(s.tables.orders, now, cmd, [EventRow(AuditEvent(cmd, cmd.orderId), eventId, now)]);
    var s3 := s2.(open := s2.open[t := tx]);
    SucceedsThen(s3, Commit(t), []);
    SucceedsThen(s2, insert, [Commit(t)]);
    SucceedsThen(s1, Guard(t, cmd), [insert, Commit(t)]);
    SucceedsThen(s, Begin(t, now), [Guard(t, cmd), insert, Commit(t)]);
    assert [Begin(t, now)] + [Guard(t, cmd), insert, Commit(t)] == CancelBy(t, now, cmd, eventId);
  }

  lemma ProgramOfCancel(t: TxId, now: Timestamp, cmd: Command, newUuid: nat -> Uuid)
    requires cmd.CancelOrder?
    ensures Program(t, now, cmd, [cmd.orderId], newUuid) == CancelBy(t, now, cmd, newUuid(0))
  {
  }

  /** A session creates the order before the read, nobody disturbs the cancel, and the item read is cut off. */
  function CutOffScript(create: Command, now: Timestamp, u: TxId, eventId: Uuid): seq<Interlude>
    requires IsOneLineCreate(create)
  {
    [Interlude(CreateBy(u, now, create, eventId), false)]
    + [Interlude([], false), Interlude([], false), Interlude([], false), Interlude([], false)]
    + [Interlude([], true)]
  }

  lemma CancelIsCommitted(create: Command, cancel: Command, now: Timestamp, t: TxId, u: TxId, eventId: Uuid,
                          newUuid: nat -> Uuid)
    requires IsOneLineCreate(create) && cancel.CancelOrder?
    requires cancel.orderId == create.orderId && cancel.customerId == create.customerId
    requires t != u && eventId != newUuid(0)
    ensures var script := CutOffScript(create, now, u, eventId);
            var run := CancelRun(INITIAL, script, t, now, cancel.orderId, cancel.customerId, cancel.source, newUuid);
            && run.Some? && NextFault(Rest(script, 5)) && NextSteps(Rest(script, 5)) == []
            && create.orderId in run.value.tables.orders
            && run.value.tables.orders[create.orderId].status == Cancelled
  {
    var script := CutOffScript(create, now, u, eventId);
    CreateRunsThrough(u, now, create, eventId);
    PlayedIsAfter(t, INITIAL, script[0].steps);
    var read := Played(t, INITIAL, NextSteps(script));
    assert read.tables.orders == map[create.orderId := NewOrder(create, now)];
    CancelSucceeds(read, t, now, cancel, newUuid(0));
    CancelRunsThrough(read, t, now, cancel, newUuid(0));
    ExecutedQuietly(t, read, Rest(script, 1), CancelBy(t, now, cancel, newUuid(0)));
    ProgramOfCancel(t, now, cancel, newUuid);
  }

  /** Run through: the answer is an error, and the order is CANCELLED. */
  method CancelCutOffAfterCommit(create: Command, source: Attribution, now: Timestamp, newUuid: nat -> Uuid)
    returns (r: Result<OrderDetails, ServiceError>, stored: Option<Order>)
    requires IsOneLineCreate(create)
    ensures r == Err(Store(Interrupted))
    ensures stored.Some? && stored.value.id == create.orderId && stored.value.status == Cancelled
  {
    var cancel := Command.CancelOrder(create.orderId, create.customerId, source);
    var eventId := if newUuid(0) == 1 then 2 else 1;
    var db := new Database(CutOffScript(create, now, 1, eventId));
    CancelIsCommitted(create, cancel, now, 2, 1, eventId, newUuid);
    r := CancelOrderDetails(db, 2, now, create.orderId, create.customerId, source, newUuid);
    StoredRowsValid(db);
    stored := OwnedOrder(db.state.tables.orders, create.orderId, create.customerId);
  }
}
