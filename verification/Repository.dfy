/** The transactional writers (internal/orders/repository.go). */
module Repository {
  import opened Wrappers
  import opened Ids
  import opened Clock
  import opened StateMachine
  import opened Schema
  import opened Commands
  import opened AtomicSpec
  import opened Transactions
  import opened Serializability
  import opened Server
  import opened Integrity
  import opened Columns

  datatype CreateOrderResult = CreateOrderResult(order: Order, items: seq<OrderItem>)

  /** `n` values drawn from the UUID generator. */
  function Drawn(newUuid: nat -> Uuid, n: nat): seq<Uuid> {
    seq(n, i requires 0 <= i < n => newUuid(i))
  }

  /** The transaction is open and has written exactly `body`. */
  ghost predicate Holds(s: State, t: TxId, now: Timestamp, body: Body) {
    t in s.open && s.open[t] == Tx(now, body)
  }

  /** No other session acts while the method runs, and none has left a transaction open. */
  ghost predicate Alone(db: Database, t: TxId)
    reads db
  {
    db.script == [] && db.state.open.Keys <= {t}
  }

  // ---- The statements of a transaction ----

  function ItemSteps(t: TxId, cmd: Command): seq<Step> {
    if cmd.CreateOrder? then
      seq(|cmd.items|, i requires 0 <= i < |cmd.items| => InsertItem(t, cmd.items[i], cmd.orderId))
    else []
  }

  function EventSteps(t: TxId, cmd: Command, moved: seq<Uuid>, newUuid: nat -> Uuid): seq<Step> {
    seq(|moved|, i requires 0 <= i < |moved| => InsertEvent(t, newUuid(i), AuditEvent(cmd, moved[i])))
  }

  function Closing(t: TxId, cmd: Command, moved: seq<Uuid>, newUuid: nat -> Uuid): seq<Step> {
    EventSteps(t, cmd, moved, newUuid) + [Commit(t)]
  }

  /** All statements of the command's transaction, when its guard moves `moved`. */
  function Program(t: TxId, now: Timestamp, cmd: Command, moved: seq<Uuid>, newUuid: nat -> Uuid): seq<Step> {
    [Begin(t, now), Guard(t, cmd)] + (ItemSteps(t, cmd) + Closing(t, cmd, moved, newUuid))
  }

  /** Once begun, the program is its items and its closing. */
  lemma ProgramAfterBegin(t: TxId, s: State, script: seq<Interlude>, now: Timestamp, cmd: Command, moved: seq<Uuid>,
                          newUuid: nat -> Uuid)
    ensures Executed(t, s, script, Program(t, now, cmd, moved, newUuid)) ==
            match Executed(t, s, script, [Begin(t, now), Guard(t, cmd)])
            case None => None
            case Some(begun) =>
              Executed(t, begun, Rest(script, 2), ItemSteps(t, cmd) + Closing(t, cmd, moved, newUuid))
  {
    ExecutedConcat(t, s, script, [Begin(t, now), Guard(t, cmd)], ItemSteps(t, cmd) + Closing(t, cmd, moved, newUuid));
  }

  lemma ProgramWithoutItems(t: TxId, s: State, script: seq<Interlude>, now: Timestamp, cmd: Command, moved: seq<Uuid>,
                            newUuid: nat -> Uuid)
    requires !cmd.CreateOrder?
    ensures Executed(t, s, script, Program(t, now, cmd, moved, newUuid)) ==
            match Executed(t, s, script, [Begin(t, now), Guard(t, cmd)])
            case None => None
            case Some(begun) => Executed(t, begun, Rest(script, 2), Closing(t, cmd, moved, newUuid))
  {
    ProgramAfterBegin(t, s, script, now, cmd, moved, newUuid);
    assert ItemSteps(t, cmd) + Closing(t, cmd, moved, newUuid) == Closing(t, cmd, moved, newUuid);
  }

  /** One more statement of a list of statements has been executed, or not. */
  lemma ExecutedFrom(t: TxId, s: State, script: seq<Interlude>, steps: seq<Step>, i: nat)
    requires i < |steps|
    ensures Executed(t, s, script, steps[i..]) ==
            match TakesPlace(t, s, script, steps[i])
            case None => None
            case Some(next) => Executed(t, next, Rest(script, 1), steps[i + 1..])
  {
    assert steps[i..][1..] == steps[i + 1..];
  }

  lemma ItemsFitStep(items: seq<OrderItem>, inputs: seq<ItemInput>, i: nat, done: seq<OrderItem>)
    requires i < |inputs| && |done| == i && ItemsFit(items, inputs[..i])
    requires forall j :: 0 <= j < i ==> done[j].id == inputs[j].id
    ensures ItemsFit(items, inputs[..i + 1]) <==>
            && ItemAllowed(inputs[i].quantity, inputs[i].unitPriceCents)
            && !HasItem(items, inputs[i].id) && !HasItem(done, inputs[i].id)
  {
    var next := inputs[..i + 1];
    assert next[i] == inputs[i];
    assert forall j :: 0 <= j < i ==> next[j] == inputs[..i][j] && done[j].id == next[j].id;
    if HasItem(done, inputs[i].id) {
      var j :| 0 <= j < |done| && done[j].id == inputs[i].id;
      assert next[j].id == next[i].id;
    }
  }

  lemma ItemsFitPrefix(items: seq<OrderItem>, inputs: seq<ItemInput>, n: nat)
    requires n <= |inputs|
    ensures ItemsFit(items, inputs) ==> ItemsFit(items, inputs[..n])
  {
  }

  /** One turn of the loop over items. */
  method InsertNextItem(db: Database, t: TxId, now: Timestamp, ghost body: Body, input: ItemInput, orderId: Uuid)
    returns (r: Result<OrderItem, DbError>)
    requires db.Valid() && Holds(db.state, t, now, body) && WantsItem(body, input, orderId) && orderId in body.rows
    modifies db
    ensures db.Valid() && old(db.state.log) <= db.state.log
    ensures r.Ok? ==>
              r.value == ItemRow(input, orderId, now) && Holds(db.state, t, now, body.(items := body.items + [r.value]))
    ensures r.Ok? ==> db.script == Rest(old(db.script), 1)
    ensures TakesPlace(t, old(db.state), old(db.script), InsertItem(t, input, orderId)) == Reached(r.Ok?, db.state)
    ensures r.Err? ==> Absent(db.state, t) && !GuardError(r.error)
    ensures old(Alone(db, t)) ==>
              && Alone(db, t) && Quiet(old(db.state), db.state)
              && (r.Ok? <==>
                  && ItemAllowed(input.quantity, input.unitPriceCents)
                  && !HasItem(old(db.state.tables.items), input.id) && !HasItem(body.items, input.id))
  {
    r := db.CreateOrderItem(t, input, orderId);
    if r.Err? {
      db.Rollback(t);
    }
  }

  /** The body of a create with these items inserted. */
  function CreateBody(cmd: Command, order: Order, items: seq<OrderItem>): Body
    requires cmd.CreateOrder?
  {
    Writing(cmd, [cmd.orderId], map[cmd.orderId := order], items, [])
  }

  predicate AreItemRows(items: seq<OrderItem>, cmd: Command, now: Timestamp)
    requires cmd.CreateOrder?
  {
    |items| <= |cmd.items| && forall j :: 0 <= j < |items| ==> items[j] == ItemRow(cmd.items[j], cmd.orderId, now)
  }

  /** The insert of the command's next item. */
  method InsertItemOf(db: Database, t: TxId, now: Timestamp, cmd: Command, order: Order, ghost done: seq<OrderItem>, i: nat)
    returns (r: Result<OrderItem, DbError>)
    requires db.Valid() && cmd.CreateOrder? && order.id == cmd.orderId && AreItemRows(done, cmd, now)
    requires |done| == i < |cmd.items| && Holds(db.state, t, now, CreateBody(cmd, order, done))
    modifies db
    ensures db.Valid() && old(db.state.log) <= db.state.log
    ensures r.Ok? ==>
              && AreItemRows(done + [r.value], cmd, now)
              && Holds(db.state, t, now, CreateBody(cmd, order, done + [r.value]))
              && db.script == Rest(old(db.script), 1)
    ensures Executed(t, old(db.state), old(db.script), ItemSteps(t, cmd)[i..]) ==
            if r.Ok? then Executed(t, db.state, db.script, ItemSteps(t, cmd)[i + 1..]) else None
    ensures r.Err? ==> Absent(db.state, t) && !GuardError(r.error)
    ensures old(Alone(db, t)) ==>
              && Alone(db, t) && Quiet(old(db.state), db.state)
              && (ItemsFit(db.state.tables.items, cmd.items[..i]) ==>
                    && (r.Ok? ==> ItemsFit(db.state.tables.items, cmd.items[..i + 1]))
                    && (r.Err? ==> !ItemsFit(db.state.tables.items, cmd.items)))
  {
    ghost var items := db.state.tables.items;
    if ItemsFit(items, cmd.items[..i]) {
      ItemsFitStep(items, cmd.items, i, done);
    }
    ItemsFitPrefix(items, cmd.items, i + 1);
    ExecutedFrom(t, db.state, db.script, ItemSteps(t, cmd), i);
    ItemRowsGrow(done, cmd, now);
    r := InsertNextItem(db, t, now, CreateBody(cmd, order, done), cmd.items[i], order.id);
  }

  lemma ItemRowsGrow(done: seq<OrderItem>, cmd: Command, now: Timestamp)
    requires cmd.CreateOrder? && AreItemRows(done, cmd, now) && |done| < |cmd.items|
    ensures AreItemRows(done + [ItemRow(cmd.items[|done|], cmd.orderId, now)], cmd, now)
  {
  }

  /** The loop over the command's items (internal/orders/repository.go:146-161). */
  method InsertItems(db: Database, t: TxId, now: Timestamp, cmd: Command, order: Order)
    returns (r: Result<seq<OrderItem>, DbError>)
    requires db.Valid() && cmd.CreateOrder? && order.id == cmd.orderId
    requires Holds(db.state, t, now, CreateBody(cmd, order, []))
    modifies db
    ensures db.Valid() && old(db.state.log) <= db.state.log
    ensures r.Ok? ==>
              && |r.value| == |cmd.items| && AreItemRows(r.value, cmd, now)
              && Holds(db.state, t, now, CreateBody(cmd, order, r.value))
              && db.script == Rest(old(db.script), |cmd.items|)
    ensures Executed(t, old(db.state), old(db.script), ItemSteps(t, cmd)) == Reached(r.Ok?, db.state)
    ensures r.Err? ==> Absent(db.state, t) && !GuardError(r.error)
    ensures old(Alone(db, t)) ==>
              && Alone(db, t) && Quiet(old(db.state), db.state)
              && (r.Ok? <==> ItemsFit(old(db.state.tables.items), cmd.items))
  {
    var createdItems: seq<OrderItem> := [];
    ghost var steps := ItemSteps(t, cmd);
    for i := 0 to |cmd.items|
      invariant db.Valid() && old(db.state.log) <= db.state.log
      invariant |createdItems| == i && AreItemRows(createdItems, cmd, now)
      invariant Holds(db.state, t, now, CreateBody(cmd, order, createdItems))
      invariant db.script == Rest(old(db.script), i)
      invariant Executed(t, db.state, db.script, steps[i..]) == Executed(t, old(db.state), old(db.script), steps)
      invariant old(Alone(db, t)) ==>
                  && Alone(db, t) && Quiet(old(db.state), db.state)
                  && ItemsFit(db.state.tables.items, cmd.items[..i])
    {
      RestOfRest(old(db.script), i, 1);
      var created := InsertItemOf(db, t, now, cmd, order, createdItems, i);
      if created.Err? {
        return Err(created.error);
      }
      createdItems := createdItems + [created.value];
    }
    assert cmd.items[..|cmd.items|] == cmd.items;
    r := Ok(createdItems);
  }

  lemma EventIdsFitStep(events: seq<OrderEvent>, newUuid: nat -> Uuid, i: nat, done: seq<OrderEvent>)
    requires |done| == i && EventIdsFit(events, Drawn(newUuid, i)) && EventIds(done) == Drawn(newUuid, i)
    ensures EventIdsFit(events, Drawn(newUuid, i + 1)) <==>
            !HasEvent(events, newUuid(i)) && !HasEvent(done, newUuid(i))
  {
    var next := Drawn(newUuid, i + 1);
    assert next[i] == newUuid(i);
    forall j | 0 <= j < i ensures next[j] == Drawn(newUuid, i)[j] == done[j].id {
      assert EventIds(done)[j] == done[j].id;
    }
    if HasEvent(done, newUuid(i)) {
      var j :| 0 <= j < |done| && done[j].id == newUuid(i);
      assert next[j] == next[i];
    }
  }

  lemma EventIdsOneMore(events: seq<OrderEvent>, event: OrderEvent, newUuid: nat -> Uuid)
    requires EventIds(events) == Drawn(newUuid, |events|) && event.id == newUuid(|events|)
    ensures EventIds(events + [event]) == Drawn(newUuid, |events| + 1)
  {
    var ids, all := Drawn(newUuid, |events|), Drawn(newUuid, |events| + 1);
    assert forall i :: 0 <= i < |events| ==> ids[i] == all[i] && EventIds(events)[i] == events[i].id;
  }

  lemma EventIdsFitPrefix(events: seq<OrderEvent>, newUuid: nat -> Uuid, m: nat, n: nat)
    requires m <= n
    ensures EventIdsFit(events, Drawn(newUuid, n)) ==> EventIdsFit(events, Drawn(newUuid, m))
  {
    var some, all := Drawn(newUuid, m), Drawn(newUuid, n);
    assert forall i :: 0 <= i < m ==> some[i] == all[i];
  }

  /** Whether the audit events of a command can be inserted when nobody interferes. */
  ghost predicate AuditFits(events: seq<OrderEvent>, cmd: Command, moved: seq<Uuid>, newUuid: nat -> Uuid) {
    && EventIdsFit(events, Drawn(newUuid, |moved|))
    && (moved != [] ==> ActorAllowed(AuditEvent(cmd, moved[0]).actorType))
  }

  /** One turn of the loops over audit events. */
  method InsertNextEvent(db: Database, t: TxId, now: Timestamp, ghost body: Body, id: Uuid, params: EventParams)
    returns (r: Result<OrderEvent, DbError>)
    requires db.Valid() && Holds(db.state, t, now, body) && WantsEvent(body, params) && params.orderId in body.rows
    modifies db
    ensures db.Valid() && old(db.state.log) <= db.state.log
    ensures r.Ok? ==> r.value.id == id && Holds(db.state, t, now, body.(events := body.events + [r.value]))
    ensures r.Ok? ==> db.script == Rest(old(db.script), 1)
    ensures TakesPlace(t, old(db.state), old(db.script), InsertEvent(t, id, params)) == Reached(r.Ok?, db.state)
    ensures r.Err? ==> Absent(db.state, t) && !GuardError(r.error)
    ensures old(Alone(db, t)) ==>
              && Alone(db, t) && Quiet(old(db.state), db.state)
              && (r.Ok? <==>
                  && ActorAllowed(params.actorType)
                  && !HasEvent(old(db.state.tables.events), id) && !HasEvent(body.events, id))
  {
    r := db.CreateOrderEvent(t, id, params);
    if r.Err? {
      db.Rollback(t);
    }
  }

  /** The insert of the command's next audit event. */
  method InsertEventOf(db: Database, t: TxId, now: Timestamp, ghost body: Body, ghost done: seq<OrderEvent>, cmd: Command,
                       moved: seq<Uuid>, newUuid: nat -> Uuid, i: nat)
    returns (r: Result<OrderEvent, DbError>)
    requires db.Valid() && body.Writing? && body.cmd == cmd && body.moved == moved && ItemsInserted(body)
    requires |done| == i < |moved| && moved[i] in body.rows && Holds(db.state, t, now, body.(events := done))
    requires EventIds(done) == Drawn(newUuid, i)
    modifies db
    ensures db.Valid() && old(db.state.log) <= db.state.log
    ensures r.Ok? ==>
              && EventIds(done + [r.value]) == Drawn(newUuid, i + 1)
              && Holds(db.state, t, now, body.(events := done + [r.value]))
              && db.script == Rest(old(db.script), 1)
    ensures Executed(t, old(db.state), old(db.script), EventSteps(t, cmd, moved, newUuid)[i..]) ==
            if r.Ok? then Executed(t, db.state, db.script, EventSteps(t, cmd, moved, newUuid)[i + 1..]) else None
    ensures r.Err? ==> Absent(db.state, t) && !GuardError(r.error)
    ensures old(Alone(db, t)) ==>
              && Alone(db, t) && Quiet(old(db.state), db.state)
              && (EventIdsFit(db.state.tables.events, Drawn(newUuid, i)) ==>
                    && (r.Ok? ==>
                          && EventIdsFit(db.state.tables.events, Drawn(newUuid, i + 1))
                          && ActorAllowed(AuditEvent(cmd, moved[0]).actorType))
                    && (r.Err? ==> !AuditFits(db.state.tables.events, cmd, moved, newUuid)))
  {
    ghost var events := db.state.tables.events;
    if EventIdsFit(events, Drawn(newUuid, i)) {
      EventIdsFitStep(events, newUuid, i, done);
    }
    EventIdsFitPrefix(events, newUuid, i + 1, |moved|);
    ExecutedFrom(t, db.state, db.script, EventSteps(t, cmd, moved, newUuid), i);
    var params := AuditEvent(cmd, moved[i]);
    r := InsertNextEvent(db, t, now, body.(events := done), newUuid(i), params);
    if r.Ok? {
      EventIdsOneMore(done, r.value, newUuid);
    }
  }

  /** One audit event for every order the command wrote (internal/orders/repository.go:163-175, 203-215,
      240-252, 273-287). */
  method InsertEvents(db: Database, t: TxId, now: Timestamp, ghost body: Body, cmd: Command, moved: seq<Uuid>,
                      newUuid: nat -> Uuid)
    returns (r: Result<seq<OrderEvent>, DbError>)
    requires db.Valid() && body.Writing? && body.cmd == cmd && body.moved == moved
    requires ItemsInserted(body) && body.events == [] && Holds(db.state, t, now, body)
    requires forall i :: 0 <= i < |moved| ==> moved[i] in body.rows
    modifies db
    ensures db.Valid() && old(db.state.log) <= db.state.log
    ensures r.Ok? ==>
              && EventIds(r.value) == Drawn(newUuid, |moved|)
              && Holds(db.state, t, now, body.(events := r.value))
              && db.script == Rest(old(db.script), |moved|)
    ensures Executed(t, old(db.state), old(db.script), EventSteps(t, cmd, moved, newUuid)) == Reached(r.Ok?, db.state)
    ensures r.Err? ==> Absent(db.state, t) && !GuardError(r.error)
    ensures old(Alone(db, t)) ==>
              && Alone(db, t) && Quiet(old(db.state), db.state)
              && (r.Ok? <==> AuditFits(old(db.state.tables.events), cmd, moved, newUuid))
  {
    var events: seq<OrderEvent> := [];
    ghost var steps := EventSteps(t, cmd, moved, newUuid);
    for i := 0 to |moved|
      invariant db.Valid() && old(db.state.log) <= db.state.log
      invariant |events| == i && EventIds(events) == Drawn(newUuid, i)
      invariant Holds(db.state, t, now, body.(events := events))
      invariant db.script == Rest(old(db.script), i)
      invariant Executed(t, db.state, db.script, steps[i..]) == Executed(t, old(db.state), old(db.script), steps)
      invariant old(Alone(db, t)) ==>
                  && Alone(db, t) && Quiet(old(db.state), db.state)
                  && EventIdsFit(db.state.tables.events, Drawn(newUuid, i))
                  && (i > 0 ==> ActorAllowed(AuditEvent(cmd, moved[0]).actorType))
    {
      RestOfRest(old(db.script), i, 1);
      var created := InsertEventOf(db, t, now, body, events, cmd, moved, newUuid, i);
      if created.Err? {
        return Err(created.error);
      }
      events := events + [created.value];
    }
    r := Ok(events);
  }

  /** What every writer promises. Success: its command is the newest commit, and the tables are its atomic
      effect on the commits before. Failure: nothing of it was committed. */
  ghost predicate Settled(before: State, after: State, t: TxId, ok: bool, e: Entry) {
    if ok then CommittedBy(before, after, e)
    else Absent(after, t) && before.log <= after.log
  }

  /** The same when no other session acts or holds anything: success executes the command on the tables as
      they were, failure leaves them, and either way no transaction stays open. */
  ghost predicate SettledAlone(before: State, after: State, ok: bool, e: Entry) {
    && after.open.Keys == {} && after.used <= before.used + {e.t}
    && if ok then
         Allowed(before.tables, e) && after.tables == Apply(before.tables, e) && after.log == before.log + [e]
       else
         after.tables == before.tables && after.log == before.log
  }

  /** How an undisturbed transaction ends: it succeeds exactly if its command is allowed, with its exact
      effect, and leaves nothing of the script. */
  ghost predicate EndsAlone(before: State, after: State, left: seq<Interlude>, ok: bool, e: Entry) {
    left == [] && (ok <==> Allowed(before.tables, e)) && SettledAlone(before, after, ok, e)
  }

  /** What holds from the middle of a transaction on holds from its start. */
  lemma SettledFromStart(before: State, middle: State, after: State, left: seq<Interlude>, ok: bool, e: Entry, alone: bool)
    requires before.log <= middle.log && Settled(middle, after, e.t, ok, e)
    requires alone ==>
               && middle.tables == before.tables && middle.log == before.log && middle.used == before.used + {e.t}
               && left == [] && (ok <==> Allowed(before.tables, e)) && SettledAlone(middle, after, ok, e)
    ensures Settled(before, after, e.t, ok, e)
    ensures alone ==> EndsAlone(before, after, left, ok, e)
  {
  }

  /** The command could be executed whole on these tables, moving `moved`. */
  ghost predicate Fits(tables: Tables, t: TxId, cmd: Command, now: Timestamp, moved: seq<Uuid>, newUuid: nat -> Uuid) {
    Allowed(tables, Entry(t, cmd, now, moved, Drawn(newUuid, |moved|)))
  }

  lemma FitsInParts(tables: Tables, t: TxId, cmd: Command, now: Timestamp, moved: seq<Uuid>, newUuid: nat -> Uuid)
    requires GuardHolds(tables.orders, cmd, moved)
    ensures Fits(tables, t, cmd, now, moved, newUuid) <==>
            ItemsFit(tables.items, ItemsOf(cmd)) && AuditFits(tables.events, cmd, moved, newUuid)
  {
  }

  /** The end of every transaction function: its audit events, then the commit, or else the rollback. */
  method AuditAndCommit(db: Database, t: TxId, now: Timestamp, ghost body: Body, cmd: Command, moved: seq<Uuid>,
                        newUuid: nat -> Uuid)
    returns (r: Option<DbError>)
    requires db.Valid() && body.Writing? && body.cmd == cmd && body.moved == moved
    requires ItemsInserted(body) && body.events == [] && Holds(db.state, t, now, body)
    requires forall i :: 0 <= i < |moved| ==> moved[i] in body.rows
    modifies db
    ensures db.Valid()
    ensures Settled(old(db.state), db.state, t, r.None?, Entry(t, cmd, now, moved, Drawn(newUuid, |moved|)))
    ensures r.None? ==> RowsStored(db.state.tables, body)
    ensures r.Some? ==> !GuardError(r.value)
    ensures r.None? ==> db.script == Rest(old(db.script), |moved| + 1)
    ensures Executed(t, old(db.state), old(db.script), Closing(t, cmd, moved, newUuid)) == Reached(r.None?, db.state)
    ensures old(Alone(db, t)) ==>
              && db.script == [] && (r.None? <==> AuditFits(old(db.state.tables.events), cmd, moved, newUuid))
              && SettledAlone(old(db.state), db.state, r.None?, Entry(t, cmd, now, moved, Drawn(newUuid, |moved|)))
  {
    ExecutedConcat(t, db.state, db.script, EventSteps(t, cmd, moved, newUuid), [Commit(t)]);
    var audited := InsertEvents(db, t, now, body, cmd, moved, newUuid);
    if audited.Err? {
      db.Rollback(t);
      return Some(audited.error);
    }
    RestOfRest(old(db.script), |moved|, 1);
    assert EntryOf(t, db.state.open[t]) == Entry(t, cmd, now, moved, Drawn(newUuid, |moved|));
    ExecutedOne(t, db.state, db.script, Commit(t));
    var committed := db.Commit(t);
    r := if committed then None else Some(Interrupted);
  }

  /** The orders a command moves when no other session holds anything. */
  function MovedAlone(orders: map<Uuid, Order>, cmd: Command): seq<Uuid> {
    match cmd
    case ProcessBatch(limit, _) =>
      Take(OldestFirst(orders, PendingIds(orders)), if limit < 0 then 0 else limit)
    case _ => [cmd.orderId]
  }

  lemma NothingHeldAlone(s: State, t: TxId, id: Uuid, customerId: Uuid, key: string)
    requires s.open.Keys <= {t}
    ensures !RowLocked(s, t, id) && !PairReserved(s, t, customerId, key)
  {
  }

  lemma PickableAlone(s: State, t: TxId)
    requires s.open.Keys <= {t}
    ensures Pickable(s, t) == PendingIds(s.tables.orders)
  {
    forall id ensures !RowLocked(s, t, id) {
      NothingHeldAlone(s, t, id, 0, "");
    }
  }

  lemma GuardAlone(s: State, t: TxId, cmd: Command)
    requires s.open.Keys <= {t}
    ensures GuardOutcome(s, t, cmd).Done? <==> GuardHolds(s.tables.orders, cmd, MovedAlone(s.tables.orders, cmd))
    ensures GuardOutcome(s, t, cmd).Done? ==> GuardOutcome(s, t, cmd).value == MovedAlone(s.tables.orders, cmd)
  {
    GuardDoneMeansHolds(s, t, cmd);
    match cmd
    case CreateOrder(orderId, customerId, key, _, _, _, _) => NothingHeldAlone(s, t, orderId, customerId, key);
    case CancelOrder(orderId, _, _) => NothingHeldAlone(s, t, orderId, 0, "");
    case UpdateStatus(orderId, _, _, _, _) => NothingHeldAlone(s, t, orderId, 0, "");
    case ProcessBatch(_, _) => PickableAlone(s, t);
  }

  lemma RowsMatchTheirIds(orders: map<Uuid, Order>, cmd: Command, moved: seq<Uuid>, now: Timestamp)
    requires OrderRowsValid(orders) && GuardHolds(orders, cmd, moved)
    ensures var rows := GuardRows(orders, cmd, moved, now);
            && (forall id :: id in rows <==> id in moved)
            && (forall i :: 0 <= i < |moved| ==> RowIs(rows, moved[i], StatusWritten(cmd)))
    ensures !cmd.ProcessBatch? ==> moved == [cmd.orderId]
    ensures cmd.ProcessBatch? ==> |moved| <= cmd.limit
  {
  }

  predicate RowIs(rows: map<Uuid, Order>, id: Uuid, status: OrderStatus) {
    id in rows && rows[id].id == id && rows[id].status == status
  }

  lemma StoredRowsValid(db: Database)
    requires db.Valid()
    ensures OrderRowsValid(db.state.tables.orders)
  {
    db.ValidMeansSerial();
    CommittedTablesSatisfySchema(db.state.log);
  }

  /** The guarded update of the command would match a row. */
  predicate RowMatches(orders: map<Uuid, Order>, cmd: Command) {
    match cmd
    case CancelOrder(id, customerId, _) =>
      id in orders && orders[id].customerId == customerId && orders[id].status == Pending
    case UpdateStatus(id, expected, _, _, _) => id in orders && orders[id].status == expected
    case _ => true
  }

  /** What the two errors that the service interprets say about the committed orders. */
  predicate ErrorFits(orders: map<Uuid, Order>, cmd: Command, error: DbError) {
    && (error == NoRows ==> !RowMatches(orders, cmd))
    && (error == UniqueViolation(CustomerIdempotencyKey) ==>
          cmd.CreateOrder? && PairTaken(orders, cmd.customerId, cmd.idempotencyKey))
  }

  /** Only the idempotency pair stands in the way of the create. */
  predicate OnlyPairIsTaken(orders: map<Uuid, Order>, cmd: Command) {
    && cmd.CreateOrder? && cmd.orderId !in orders
    && cmd.totalCents >= 0 && ToChar3(cmd.currency).Some?
    && PairTaken(orders, cmd.customerId, cmd.idempotencyKey)
  }

  /** Where the guarded statement finds the database: the script has run on twice, before and after BEGIN. */
  function SeenByGuard(s: State, script: seq<Interlude>, t: TxId, now: Timestamp): State {
    Played(t, Begun(Played(t, s, NextSteps(script)), t, now), NextSteps(Rest(script, 1)))
  }

  /** The orders that the command moves if its guard goes ahead here. */
  function MovedBy(seen: State, t: TxId, cmd: Command): seq<Uuid> {
    if !cmd.ProcessBatch? then [cmd.orderId]
    else if GuardOutcome(seen, t, cmd).Done? then GuardOutcome(seen, t, cmd).value
    else []
  }

  /** What the whole transaction of a command leads to, whatever the script says that others do in between:
      the state after its commit, or nothing if it does not get so far. */
  function Transaction(s: State, script: seq<Interlude>, t: TxId, now: Timestamp, cmd: Command,
                       newUuid: nat -> Uuid): Option<State>
  {
    Executed(t, s, script, Program(t, now, cmd, MovedBy(SeenByGuard(s, script, t, now), t, cmd), newUuid))
  }

  /** BEGIN or the guarded statement is cut off. */
  predicate BeginFaults(script: seq<Interlude>) {
    NextFault(script) || NextFault(Rest(script, 1))
  }

  function FailureOf<T, E>(r: Result<T, E>): Option<E> {
    if r.Ok? then None else Some(r.error)
  }

  /** Exactly when a transaction of the command fails with one of the two errors that the service
      interprets: what counts is the database as the guarded statement finds it. */
  ghost predicate ExactFailure(seen: State, script: seq<Interlude>, t: TxId, cmd: Command, failure: Option<DbError>) {
    && (failure == Some(NoRows) <==> !BeginFaults(script) && !RowMatches(seen.tables.orders, cmd))
    && (failure == Some(UniqueViolation(CustomerIdempotencyKey)) <==>
        !BeginFaults(script) && OnlyPairIsTaken(seen.tables.orders, cmd) && !RowLocked(seen, t, cmd.orderId))
  }

  /** How a transaction stands to its guarded statement: the two errors as above, and after a failure for
      want of a matching row everything is as that statement left it. */
  ghost predicate FollowsGuard(before: State, script: seq<Interlude>, t: TxId, now: Timestamp, cmd: Command,
                               after: State, left: seq<Interlude>, failure: Option<DbError>)
  {
    var seen := SeenByGuard(before, script, t, now);
    && (failure.Some? ==> ErrorFits(after.tables.orders, cmd, failure.value))
    && ExactFailure(seen, script, t, cmd, failure)
    && (failure == Some(NoRows) ==> left == Rest(script, 2) && after == Close(seen, t))
  }

  /** What comes after the guarded statement gives no such error. */
  lemma StillFollowsGuard(before: State, script: seq<Interlude>, t: TxId, now: Timestamp, cmd: Command,
                          middle: State, leftThen: seq<Interlude>, after: State, left: seq<Interlude>,
                          failure: Option<DbError>)
    requires FollowsGuard(before, script, t, now, cmd, middle, leftThen, None)
    requires failure.Some? ==> !GuardError(failure.value)
    ensures FollowsGuard(before, script, t, now, cmd, after, left, failure)
  {
  }

  /** BEGIN and the guarded statement, and nothing after a failure of the latter. */
  lemma BeginOnly(t: TxId, s: State, script: seq<Interlude>, now: Timestamp, cmd: Command)
    ensures Executed(t, s, script, [Begin(t, now), Guard(t, cmd)]) ==
            match TakesPlace(t, s, script, Begin(t, now))
            case None => None
            case Some(begun) => TakesPlace(t, begun, Rest(script, 1), Guard(t, cmd))
  {
    assert [Begin(t, now), Guard(t, cmd)][1..] == [Guard(t, cmd)];
    var begun := TakesPlace(t, s, script, Begin(t, now));
    if begun.Some? {
      ExecutedOne(t, begun.value, Rest(script, 1), Guard(t, cmd));
    }
  }

  lemma GuardFailsExactly(seen: State, script: seq<Interlude>, t: TxId, cmd: Command, failure: Option<DbError>)
    requires failure == GuardFailure(seen, script, t, cmd)
    ensures ExactFailure(seen, script, t, cmd, failure)
  {
  }

  lemma GuardErrorFits(s: State, t: TxId, cmd: Command)
    requires GuardOutcome(s, t, cmd).Failed?
    ensures ErrorFits(s.tables.orders, cmd, GuardOutcome(s, t, cmd).error)
  {
  }

  /** BEGIN and the guarded statement. */
  method StartGuarded(db: Database, t: TxId, now: Timestamp, cmd: Command)
    returns (r: Result<seq<Order>, DbError>, ghost seen: State)
    requires db.Valid() && t !in db.state.used
    modifies db
    ensures db.Valid() && old(db.state.log) <= db.state.log
    ensures seen == SeenByGuard(old(db.state), old(db.script), t, now)
    ensures Executed(t, old(db.state), old(db.script), [Begin(t, now), Guard(t, cmd)]) == Reached(r.Ok?, db.state)
    ensures FailureOf(r) == GuardFailure(seen, old(db.script), t, cmd)
    ensures r.Ok? ==>
              && GuardHolds(seen.tables.orders, cmd, MovedBy(seen, t, cmd))
              && var moved, orders := MovedBy(seen, t, cmd), seen.tables.orders;
                 && Holds(db.state, t, now, Writing(cmd, moved, GuardRows(orders, cmd, moved, now), [], []))
                 && |r.value| == |moved|
                 && forall i :: 0 <= i < |moved| ==>
                      && moved[i] in GuardRows(orders, cmd, moved, now)
                      && r.value[i] == GuardRows(orders, cmd, moved, now)[moved[i]]
    ensures r.Err? ==> Absent(db.state, t)
    ensures !BeginFaults(old(db.script)) ==>
              && db.script == Rest(old(db.script), 2)
              && db.state.tables == seen.tables && db.state.log == seen.log
              && (GuardOutcome(seen, t, cmd).Failed? ==> db.state == Close(seen, t))
    ensures old(Alone(db, t)) ==>
              && Alone(db, t) && db.state.tables == old(db.state.tables) && db.state.log == old(db.state.log)
              && db.state.used == old(db.state.used) + {t} && seen.tables == db.state.tables && seen.open.Keys <= {t}
  {
    seen := SeenByGuard(db.state, db.script, t, now);
    BeginOnly(t, db.state, db.script, now, cmd);
    var begun := db.BeginTx(t, now);
    if !begun {
      return Err(Interrupted), seen;
    }
    RestOfRest(old(db.script), 1, 1);
    GuardDoneMeansHolds(seen, t, cmd);
    r, seen := db.ExecGuarded(t, cmd);
    if r.Err? {
      db.Rollback(t);
    }
  }

  /** How the guarded statement fails, if it does. */
  function GuardFailure(seen: State, script: seq<Interlude>, t: TxId, cmd: Command): Option<DbError> {
    if BeginFaults(script) then Some(Interrupted)
    else
      match GuardOutcome(seen, t, cmd)
      case Blocked => Some(Interrupted)
      case Failed(error) => Some(error)
      case Done(_) => None
  }

  /** The start of every transaction function: BEGIN and the guarded statement. */
  method BeginGuarded(db: Database, t: TxId, now: Timestamp, cmd: Command)
    returns (r: Result<seq<Order>, DbError>, ghost body: Body)
    requires db.Valid() && t !in db.state.used
    modifies db
    ensures db.Valid() && old(db.state.log) <= db.state.log
    ensures r.Ok? ==>
              && body.Writing? && body.cmd == cmd && body.items == [] && body.events == []
              && (!cmd.ProcessBatch? ==> body.moved == [cmd.orderId])
              && (cmd.ProcessBatch? ==> |body.moved| <= cmd.limit)
              && Holds(db.state, t, now, body)
              && |r.value| == |body.moved|
              && (forall id :: id in body.rows <==> id in body.moved)
              && (forall i :: 0 <= i < |body.moved| ==>
                    && RowIs(body.rows, body.moved[i], StatusWritten(cmd)) && r.value[i] == body.rows[body.moved[i]])
    ensures r.Err? ==> Absent(db.state, t)
    ensures FollowsGuard(old(db.state), old(db.script), t, now, cmd, db.state, db.script, FailureOf(r))
    ensures Executed(t, old(db.state), old(db.script), [Begin(t, now), Guard(t, cmd)]) == Reached(r.Ok?, db.state)
    ensures r.Ok? ==>
              && db.script == Rest(old(db.script), 2)
              && body.moved == MovedBy(SeenByGuard(old(db.state), old(db.script), t, now), t, cmd)
    ensures old(Alone(db, t)) ==>
              && Alone(db, t) && db.state.tables == old(db.state.tables) && db.state.log == old(db.state.log)
              && db.state.used == old(db.state.used) + {t}
              && (r.Ok? <==> GuardHolds(db.state.tables.orders, cmd, MovedAlone(db.state.tables.orders, cmd)))
              && (r.Ok? ==> body.moved == MovedAlone(db.state.tables.orders, cmd))
  {
    ghost var seen;
    r, seen := StartGuarded(db, t, now, cmd);
    GuardFailsExactly(seen, old(db.script), t, cmd, FailureOf(r));
    body := Idle;
    if r.Ok? {
      var moved := MovedBy(seen, t, cmd);
      body := Writing(cmd, moved, GuardRows(seen.tables.orders, cmd, moved, now), [], []);
      StoredRowsValid(db);
      RowsMatchTheirIds(seen.tables.orders, cmd, moved, now);
    } else if !BeginFaults(old(db.script)) && GuardOutcome(seen, t, cmd).Failed? {
      GuardErrorFits(seen, t, cmd);
    }
    if old(Alone(db, t)) {
      GuardAlone(seen, t, cmd);
    }
  }

  /** The start of a command on a single order. */
  method BeginOne(db: Database, t: TxId, now: Timestamp, cmd: Command, ghost newUuid: nat -> Uuid)
    returns (r: Result<Order, DbError>, ghost body: Body)
    requires db.Valid() && t !in db.state.used && !cmd.ProcessBatch?
    modifies db
    ensures db.Valid() && old(db.state.log) <= db.state.log
    ensures r.Ok? ==>
              && body == Writing(cmd, [cmd.orderId], map[cmd.orderId := r.value], [], [])
              && Holds(db.state, t, now, body)
              && r.value.id == cmd.orderId && r.value.status == StatusWritten(cmd)
              && db.script == Rest(old(db.script), 2)
    ensures Executed(t, old(db.state), old(db.script), [Begin(t, now), Guard(t, cmd)]) == Reached(r.Ok?, db.state)
    ensures r.Err? ==> Absent(db.state, t)
    ensures FollowsGuard(old(db.state), old(db.script), t, now, cmd, db.state, db.script, FailureOf(r))
    ensures old(Alone(db, t)) && r.Err? ==>
              EndsAlone(old(db.state), db.state, db.script, false, Entry(t, cmd, now, [cmd.orderId], Drawn(newUuid, 1)))
    ensures old(Alone(db, t)) && r.Ok? ==>
              && Alone(db, t) && db.state.tables == old(db.state.tables) && db.state.log == old(db.state.log)
              && db.state.used == old(db.state.used) + {t}
              && (Fits(old(db.state.tables), t, cmd, now, [cmd.orderId], newUuid) <==>
                  && ItemsFit(old(db.state.tables.items), ItemsOf(cmd))
                  && AuditFits(old(db.state.tables.events), cmd, [cmd.orderId], newUuid))
  {
    var rows;
    rows, body := BeginGuarded(db, t, now, cmd);
    if rows.Ok? && old(Alone(db, t)) {
      FitsInParts(db.state.tables, t, cmd, now, [cmd.orderId], newUuid);
    }
    if rows.Err? {
      return Err(rows.error), body;
    }
    r := Ok(rows.value[0]);
    assert body.rows == map[cmd.orderId := r.value];
  }

  /** The result is what is stored for the command: its order, and its lines in order. */
  ghost predicate IsStoredAs(created: CreateOrderResult, tables: Tables, cmd: Command, now: Timestamp)
    requires cmd.CreateOrder?
  {
    && cmd.orderId in tables.orders && created.order == tables.orders[cmd.orderId]
    && IsNewOrder(created.order, cmd, now)
    && ItemsOfOrder(tables.items, cmd.orderId) == created.items && AreLines(created.items, cmd, now)
  }

  lemma CommittedCreateIsStored(before: State, after: State, e: Entry)
    requires CommittedBy(before, after, e) && e.cmd.CreateOrder?
    ensures e.cmd.orderId in after.tables.orders && IsNewOrder(after.tables.orders[e.cmd.orderId], e.cmd, e.now)
    ensures ItemsOfOrder(after.tables.items, e.cmd.orderId) == NewItems(e) && AreLines(NewItems(e), e.cmd, e.now)
  {
    var log := after.log[..|after.log| - 1];
    CommittedTablesSatisfySchema(log);
    CreateIsStored(Replay(log), e, after.tables);
  }

  /** The items, the CREATED event and the commit of a create that has inserted its order. */
  method FinishCreate(db: Database, t: TxId, now: Timestamp, cmd: Command, order: Order, newUuid: nat -> Uuid)
    returns (r: Result<seq<OrderItem>, DbError>)
    requires db.Valid() && cmd.CreateOrder? && order.id == cmd.orderId
    requires Holds(db.state, t, now, CreateBody(cmd, order, []))
    modifies db
    ensures db.Valid()
    ensures Settled(old(db.state), db.state, t, r.Ok?, Entry(t, cmd, now, [cmd.orderId], Drawn(newUuid, 1)))
    ensures r.Ok? ==>
              && cmd.orderId in db.state.tables.orders && db.state.tables.orders[cmd.orderId] == order
              && r.value == NewItems(Entry(t, cmd, now, [cmd.orderId], Drawn(newUuid, 1)))
    ensures r.Err? ==> !GuardError(r.error)
    ensures Executed(t, old(db.state), old(db.script), ItemSteps(t, cmd) + Closing(t, cmd, [cmd.orderId], newUuid))
            == Reached(r.Ok?, db.state)
    ensures old(Alone(db, t)) ==>
              && db.script == []
              && (r.Ok? <==>
                  && ItemsFit(old(db.state.tables.items), cmd.items)
                  && AuditFits(old(db.state.tables.events), cmd, [cmd.orderId], newUuid))
              && SettledAlone(old(db.state), db.state, r.Ok?, Entry(t, cmd, now, [cmd.orderId], Drawn(newUuid, 1)))
  {
    ExecutedConcat(t, db.state, db.script, ItemSteps(t, cmd), Closing(t, cmd, [cmd.orderId], newUuid));
    var items := InsertItems(db, t, now, cmd, order);
    if items.Err? {
      return Err(items.error);
    }
    ghost var body := CreateBody(cmd, order, items.value);
    var failed := AuditAndCommit(db, t, now, body, cmd, [order.id], newUuid);
    if failed.Some? {
      return Err(failed.value);
    }
    assert cmd.orderId in body.rows;
    r := items;
    assert r.value == NewItems(Entry(t, cmd, now, [cmd.orderId], Drawn(newUuid, 1)));
  }

  /** Inserts the order, its items and its CREATED event, or nothing. */
  method CreateOrderWithItemsAndAudit(db: Database, t: TxId, now: Timestamp, cmd: Command, newUuid: nat -> Uuid)
    returns (r: Result<CreateOrderResult, DbError>)
    requires db.Valid() && t !in db.state.used && cmd.CreateOrder?
    modifies db
    ensures db.Valid()
    ensures Settled(old(db.state), db.state, t, r.Ok?, Entry(t, cmd, now, [cmd.orderId], Drawn(newUuid, 1)))
    ensures r.Ok? ==> IsStoredAs(r.value, db.state.tables, cmd, now)
    ensures Transaction(old(db.state), old(db.script), t, now, cmd, newUuid) == Reached(r.Ok?, db.state)
    ensures FollowsGuard(old(db.state), old(db.script), t, now, cmd, db.state, db.script, FailureOf(r))
    ensures old(Alone(db, t)) ==>
              EndsAlone(old(db.state), db.state, db.script, r.Ok?, Entry(t, cmd, now, [cmd.orderId], Drawn(newUuid, 1)))
  {
    ghost var before, script := db.state, db.script;
    ghost var e := Entry(t, cmd, now, [cmd.orderId], Drawn(newUuid, 1));
    ProgramAfterBegin(t, before, script, now, cmd, [cmd.orderId], newUuid);
    var begun, body := BeginOne(db, t, now, cmd, newUuid);
    if begun.Err? {
      return Err(begun.error);
    }
    ghost var middle, middleScript := db.state, db.script;
    var items := FinishCreate(db, t, now, cmd, begun.value, newUuid);
    SettledFromStart(before, middle, db.state, db.script, items.Ok?, e, old(Alone(db, t)));
    StillFollowsGuard(before, script, t, now, cmd, middle, middleScript, db.state, db.script, FailureOf(items));
    if items.Err? {
      return Err(items.error);
    }
    CommittedCreateIsStored(before, db.state, e);
    r := Ok(CreateOrderResult(begun.value, items.value));
  }

  /** The common course of the two single-order updates. */
  method UpdateOneWithAudit(db: Database, t: TxId, now: Timestamp, cmd: Command, newUuid: nat -> Uuid)
    returns (r: Result<Order, DbError>)
    requires db.Valid() && t !in db.state.used && (cmd.CancelOrder? || cmd.UpdateStatus?)
    modifies db
    ensures db.Valid()
    ensures Settled(old(db.state), db.state, t, r.Ok?, Entry(t, cmd, now, [cmd.orderId], Drawn(newUuid, 1)))
    ensures r.Ok? ==>
              && cmd.orderId in db.state.tables.orders
              && r.value == db.state.tables.orders[cmd.orderId] && r.value.status == StatusWritten(cmd)
    ensures Transaction(old(db.state), old(db.script), t, now, cmd, newUuid) == Reached(r.Ok?, db.state)
    ensures FollowsGuard(old(db.state), old(db.script), t, now, cmd, db.state, db.script, FailureOf(r))
    ensures r.Ok? ==> db.script == Rest(old(db.script), 4)
    ensures old(Alone(db, t)) ==>
              EndsAlone(old(db.state), db.state, db.script, r.Ok?, Entry(t, cmd, now, [cmd.orderId], Drawn(newUuid, 1)))
  {
    ghost var before, script := db.state, db.script;
    ghost var e := Entry(t, cmd, now, [cmd.orderId], Drawn(newUuid, 1));
    ProgramWithoutItems(t, before, script, now, cmd, [cmd.orderId], newUuid);
    var begun, body := BeginOne(db, t, now, cmd, newUuid);
    if begun.Err? {
      return Err(begun.error);
    }
    RestOfRest(old(db.script), 2, 2);
    ghost var middle, middleScript := db.state, db.script;
    var failed := AuditAndCommit(db, t, now, body, cmd, [begun.value.id], newUuid);
    SettledFromStart(before, middle, db.state, db.script, failed.None?, e, old(Alone(db, t)));
    StillFollowsGuard(before, script, t, now, cmd, middle, middleScript, db.state, db.script, failed);
    r := if failed.Some? then Err(failed.value) else begun;
    assert cmd.orderId in body.rows;
  }

  /** Moves an owned PENDING order to CANCELLED and records it, or does nothing. */
  method CancelOrderWithAudit(db: Database, t: TxId, now: Timestamp, cmd: Command, newUuid: nat -> Uuid)
    returns (r: Result<Order, DbError>)
    requires db.Valid() && t !in db.state.used && cmd.CancelOrder?
    modifies db
    ensures db.Valid()
    ensures Settled(old(db.state), db.state, t, r.Ok?, Entry(t, cmd, now, [cmd.orderId], Drawn(newUuid, 1)))
    ensures r.Ok? ==>
              && cmd.orderId in db.state.tables.orders
              && r.value == db.state.tables.orders[cmd.orderId] && r.value.status == Cancelled
    ensures Transaction(old(db.state), old(db.script), t, now, cmd, newUuid) == Reached(r.Ok?, db.state)
    ensures FollowsGuard(old(db.state), old(db.script), t, now, cmd, db.state, db.script, FailureOf(r))
    ensures r.Ok? ==> db.script == Rest(old(db.script), 4)
    ensures old(Alone(db, t)) ==>
              EndsAlone(old(db.state), db.state, db.script, r.Ok?, Entry(t, cmd, now, [cmd.orderId], Drawn(newUuid, 1)))
  {
    r := UpdateOneWithAudit(db, t, now, cmd, newUuid);
  }

  /** Moves an order from the expected to the new status and records it, or does nothing. */
  method UpdateOrderStatusWithAudit(db: Database, t: TxId, now: Timestamp, cmd: Command, newUuid: nat -> Uuid)
    returns (r: Result<Order, DbError>)
    requires db.Valid() && t !in db.state.used && cmd.UpdateStatus?
    modifies db
    ensures db.Valid()
    ensures Settled(old(db.state), db.state, t, r.Ok?, Entry(t, cmd, now, [cmd.orderId], Drawn(newUuid, 1)))
    ensures r.Ok? ==>
              && cmd.orderId in db.state.tables.orders
              && r.value == db.state.tables.orders[cmd.orderId] && r.value.status == cmd.next
    ensures Transaction(old(db.state), old(db.script), t, now, cmd, newUuid) == Reached(r.Ok?, db.state)
    ensures FollowsGuard(old(db.state), old(db.script), t, now, cmd, db.state, db.script, FailureOf(r))
    ensures r.Ok? ==> db.script == Rest(old(db.script), 4)
    ensures old(Alone(db, t)) ==>
              EndsAlone(old(db.state), db.state, db.script, r.Ok?, Entry(t, cmd, now, [cmd.orderId], Drawn(newUuid, 1)))
  {
    r := UpdateOneWithAudit(db, t, now, cmd, newUuid);
  }

  /** The start of a worker batch. */
  method BeginBatch(db: Database, t: TxId, now: Timestamp, cmd: Command, ghost newUuid: nat -> Uuid)
    returns (r: Result<seq<Order>, DbError>, ghost body: Body)
    requires db.Valid() && t !in db.state.used && cmd.ProcessBatch?
    modifies db
    ensures db.Valid() && old(db.state.log) <= db.state.log
    ensures r.Ok? ==>
              && body.Writing? && body.cmd == cmd && ItemsInserted(body) && body.events == []
              && Holds(db.state, t, now, body)
              && |r.value| == |body.moved|
              && forall i :: 0 <= i < |body.moved| ==>
                   && body.moved[i] in body.rows && r.value[i] == body.rows[body.moved[i]]
                   && r.value[i].id == body.moved[i] && r.value[i].status == Processing
    ensures Executed(t, old(db.state), old(db.script), [Begin(t, now), Guard(t, cmd)]) == Reached(r.Ok?, db.state)
    ensures r.Ok? ==>
              && db.script == Rest(old(db.script), 2)
              && body.moved == MovedBy(SeenByGuard(old(db.state), old(db.script), t, now), t, cmd)
              && cmd.limit >= 0
    ensures r.Err? ==> Absent(db.state, t)
    ensures old(Alone(db, t)) && r.Err? ==>
              EndsAlone(old(db.state), db.state, db.script, false, OldestBatch(old(db.state), t, now, cmd, newUuid))
    ensures old(Alone(db, t)) && r.Ok? ==>
              && Alone(db, t) && db.state.tables == old(db.state.tables) && db.state.log == old(db.state.log)
              && db.state.used == old(db.state.used) + {t}
              && body.moved == MovedAlone(old(db.state.tables.orders), cmd)
              && (Allowed(old(db.state.tables), OldestBatch(old(db.state), t, now, cmd, newUuid)) <==>
                  AuditFits(old(db.state.tables.events), cmd, body.moved, newUuid))
  {
    r, body := BeginGuarded(db, t, now, cmd);
    if r.Ok? && old(Alone(db, t)) {
      FitsInParts(db.state.tables, t, cmd, now, body.moved, newUuid);
    }
  }

  /** The batch of the oldest PENDING orders. */
  function OldestBatch(s: State, t: TxId, now: Timestamp, cmd: Command, newUuid: nat -> Uuid): Entry {
    var moved := MovedAlone(s.tables.orders, cmd);
    Entry(t, cmd, now, moved, Drawn(newUuid, |moved|))
  }

  function IdsOf(rows: seq<Order>): seq<Uuid> {
    seq(|rows|, i requires 0 <= i < |rows| => rows[i].id)
  }

  lemma IdsInOrder(rows: seq<Order>, moved: seq<Uuid>)
    requires |rows| == |moved| && forall i :: 0 <= i < |moved| ==> rows[i].id == moved[i]
    ensures IdsOf(rows) == moved
  {
  }

  /** Moves up to `limit` PENDING orders to PROCESSING and records each, or does nothing. Undisturbed, it
      moves the oldest ones. */
  method ProcessPendingOrdersBatchWithAudit(db: Database, t: TxId, now: Timestamp, cmd: Command, newUuid: nat -> Uuid)
    returns (r: Result<seq<Order>, DbError>, ghost moved: seq<Uuid>)
    requires db.Valid() && t !in db.state.used && cmd.ProcessBatch?
    modifies db
    ensures db.Valid()
    ensures Settled(old(db.state), db.state, t, r.Ok?, Entry(t, cmd, now, moved, Drawn(newUuid, |moved|)))
    ensures r.Ok? ==>
              && |r.value| == |moved|
              && moved == MovedBy(SeenByGuard(old(db.state), old(db.script), t, now), t, cmd)
              && PicksOldestUnlocked(SeenByGuard(old(db.state), old(db.script), t, now), t, cmd.limit, moved)
              && forall i :: 0 <= i < |moved| ==>
                   && moved[i] in db.state.tables.orders
                   && r.value[i] == db.state.tables.orders[moved[i]]
                   && r.value[i].id == moved[i] && r.value[i].status == Processing
    ensures Transaction(old(db.state), old(db.script), t, now, cmd, newUuid) == Reached(r.Ok?, db.state)
    ensures old(Alone(db, t)) ==>
              && EndsAlone(old(db.state), db.state, db.script, r.Ok?, OldestBatch(old(db.state), t, now, cmd, newUuid))
              && (r.Ok? ==> moved == MovedAlone(old(db.state.tables.orders), cmd))
  {
    ghost var before, script := db.state, db.script;
    ProgramWithoutItems(t, before, script, now, cmd, MovedBy(SeenByGuard(before, script, t, now), t, cmd), newUuid);
    var rows, body := BeginBatch(db, t, now, cmd, newUuid);
    if rows.Err? {
      return Err(rows.error), [];
    }
    moved := body.moved;
    BatchPicksOldestUnlocked(SeenByGuard(before, script, t, now), t, cmd);
    var ids := IdsOf(rows.value);
    IdsInOrder(rows.value, moved);
    ghost var middle := db.state;
    var failed := AuditAndCommit(db, t, now, body, cmd, ids, newUuid);
    SettledFromStart(before, middle, db.state, db.script, failed.None?, Entry(t, cmd, now, moved, Drawn(newUuid, |moved|)),
                     old(Alone(db, t)));
    r := if failed.Some? then Err(failed.value) else rows;
  }

  // ---- When an update is committed ----

  /** The transaction right after the guarded statement of an update. */
  function Guarded(s: State, script: seq<Interlude>, t: TxId, now: Timestamp, cmd: Command): State {
    var seen := SeenByGuard(s, script, t, now);
    if Succeeds(seen, Guard(t, cmd)) then Next(seen, Guard(t, cmd)) else seen
  }

  /** Where the audit event of an update finds the database. */
  function SeenByEvent(s: State, script: seq<Interlude>, t: TxId, now: Timestamp, cmd: Command): State {
    Played(t, Guarded(s, script, t, now, cmd), NextSteps(Rest(script, 2)))
  }

  /** None of the four statements of an update is cut off. */
  predicate UpdateFaults(script: seq<Interlude>) {
    BeginFaults(script) || NextFault(Rest(script, 2)) || NextFault(Rest(script, 3))
  }

  /** The transaction at the guarded statement, and what it makes of it. */
  lemma GuardTakesPlace(s: State, script: seq<Interlude>, t: TxId, now: Timestamp, cmd: Command)
    requires t !in s.used && (cmd.CancelOrder? || cmd.UpdateStatus?)
    ensures Executed(t, s, script, [Begin(t, now), Guard(t, cmd)]) ==
            if BeginFaults(script) || !GuardOutcome(SeenByGuard(s, script, t, now), t, cmd).Done? then None
            else Some(Guarded(s, script, t, now, cmd))
    ensures GuardOutcome(SeenByGuard(s, script, t, now), t, cmd).Done? ==>
              var after := Guarded(s, script, t, now, cmd);
              AwaitsEvent(after, t, cmd)
  {
    var first := Played(t, s, NextSteps(script));
    PlayedIsSameFor(t, s, NextSteps(script));
    var begun := Begun(first, t, now);
    PlayedIsSameFor(t, begun, NextSteps(Rest(script, 1)));
    BeginOnly(t, s, script, now, cmd);
    RestOfRest(script, 1, 1);
    GuardDoneMeansHolds(SeenByGuard(s, script, t, now), t, cmd);
  }

  /** The transaction has moved the command's order and has written no event yet. */
  predicate AwaitsEvent(s: State, t: TxId, cmd: Command) {
    && t in s.open && s.open[t].body.Writing? && (cmd.CancelOrder? || cmd.UpdateStatus?)
    && s.open[t].body.cmd == cmd && s.open[t].body.moved == [cmd.orderId]
    && s.open[t].body.items == [] && s.open[t].body.events == []
  }

  lemma EventTakesPlace(s: State, script: seq<Interlude>, t: TxId, cmd: Command, id: Uuid)
    requires AwaitsEvent(s, t, cmd)
    ensures var next := TakesPlace(t, s, script, InsertEvent(t, id, AuditEvent(cmd, cmd.orderId)));
            var now := Played(t, s, NextSteps(script));
            && IsWriting(now, t)
            && (next.Some? <==>
                !NextFault(script) && InsertEventOutcome(now, t, id, AuditEvent(cmd, cmd.orderId)).Done?)
            && (next.Some? ==> t in next.value.open && ReadyToCommit(next.value.open[t].body))
  {
    PlayedIsSameFor(t, s, NextSteps(script));
  }

  lemma CommitTakesPlace(s: State, script: seq<Interlude>, t: TxId)
    requires t in s.open && ReadyToCommit(s.open[t].body)
    ensures Executed(t, s, script, [Commit(t)]).Some? <==> !NextFault(script)
  {
    PlayedIsSameFor(t, s, NextSteps(script));
    ExecutedOne(t, s, script, Commit(t));
  }

  /** The audit event of an update and its commit. */
  lemma ClosingTakesPlace(s: State, script: seq<Interlude>, t: TxId, cmd: Command, newUuid: nat -> Uuid)
    requires AwaitsEvent(s, t, cmd)
    ensures Executed(t, s, script, Closing(t, cmd, [cmd.orderId], newUuid)).Some? <==>
            && !NextFault(script) && !NextFault(Rest(script, 1))
            && var now := Played(t, s, NextSteps(script));
               IsWriting(now, t) && InsertEventOutcome(now, t, newUuid(0), AuditEvent(cmd, cmd.orderId)).Done?
  {
    var event := InsertEvent(t, newUuid(0), AuditEvent(cmd, cmd.orderId));
    assert Closing(t, cmd, [cmd.orderId], newUuid) == [event] + [Commit(t)];
    ExecutedConcat(t, s, script, [event], [Commit(t)]);
    ExecutedOne(t, s, script, event);
    EventTakesPlace(s, script, t, cmd, newUuid(0));
    var next := TakesPlace(t, s, script, event);
    if next.Some? {
      CommitTakesPlace(next.value, Rest(script, 1), t);
    }
  }

  /** A cancel or status update is committed exactly if none of its statements is cut off, its guard goes ahead
      on the database as it finds it, and so does the insert of its audit event. */
  lemma UpdateGoesThrough(s: State, script: seq<Interlude>, t: TxId, now: Timestamp, cmd: Command, newUuid: nat -> Uuid)
    requires t !in s.used && (cmd.CancelOrder? || cmd.UpdateStatus?)
    ensures Transaction(s, script, t, now, cmd, newUuid).Some? <==>
            && !UpdateFaults(script)
            && GuardOutcome(SeenByGuard(s, script, t, now), t, cmd).Done?
            && var last := SeenByEvent(s, script, t, now, cmd);
               IsWriting(last, t) && InsertEventOutcome(last, t, newUuid(0), AuditEvent(cmd, cmd.orderId)).Done?
  {
    ProgramWithoutItems(t, s, script, now, cmd, [cmd.orderId], newUuid);
    GuardTakesPlace(s, script, t, now, cmd);
    RestOfRest(script, 2, 1);
    if !BeginFaults(script) && GuardOutcome(SeenByGuard(s, script, t, now), t, cmd).Done? {
      ClosingTakesPlace(Guarded(s, script, t, now, cmd), Rest(script, 2), t, cmd, newUuid);
    }
  }
}
