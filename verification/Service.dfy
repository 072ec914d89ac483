/** The order service (internal/orders/service.go). */
module Service {
  import opened Wrappers
  import opened Ids
  import opened Clock
  import opened StateMachine
  import opened Schema
  import opened Commands
  import opened AtomicSpec
  import opened Transactions
  import opened Serializability
  import opened AuditLog
  import opened Money
  import opened Integrity
  import opened Server
  import opened Repository
  import opened Validation
  import opened Columns

  datatype ServiceError =
    | Invalid(errors: seq<FieldError>)
    | TotalOverflow
    | IdempotencyConflict
    | OrderNotFound
    | Refused(reason: TransitionError)
    | InvalidActorType
    | Store(error: DbError)  // a repository error passed on as it is

  /** `uuid.Parse`, whatever forms it takes. */
  type UuidParser = string -> Option<Uuid>

  function RequestLines(items: seq<ItemRequest>): (lines: seq<Line>)
    ensures |lines| == |items|
  {
    seq(|items|, i requires 0 <= i < |items| => Line(items[i].quantity, items[i].unitPriceCents))
  }

  /** The lines of a command are those of the request, and get the drawn ids. */
  ghost predicate Carries(inputs: seq<ItemInput>, items: seq<ItemRequest>, newUuid: nat -> Uuid, parseUuid: UuidParser) {
    && |inputs| == |items|
    && forall i :: 0 <= i < |inputs| ==>
         && inputs[i].id == newUuid(i)
         && parseUuid(items[i].productId) == Option.Some(inputs[i].productId)
         && inputs[i].sku == items[i].sku
         && inputs[i].quantity == items[i].quantity
         && inputs[i].unitPriceCents == items[i].unitPriceCents
  }

  /** The one complaint is about the first line whose product id does not parse. */
  ghost predicate NamesFirstBadId(errors: seq<FieldError>, items: seq<ItemRequest>, parseUuid: UuidParser) {
    && |errors| == 1 && errors[0].message == "must be a valid UUID" && errors[0].field.ItemField? && errors[0].field.part == ProductIdPart
    && errors[0].field.index < |items| && parseUuid(items[errors[0].field.index].productId).None?
    && forall j :: 0 <= j < errors[0].field.index ==> parseUuid(items[j].productId).Some?
  }

  /** Parses the product ids and draws an id for each line (service.go:110-127). */
  method BuildItems(items: seq<ItemRequest>, newUuid: nat -> Uuid, parseUuid: UuidParser)
    returns (r: Result<seq<ItemInput>, ServiceError>)
    ensures r.Ok? ==> Carries(r.value, items, newUuid, parseUuid)
    ensures r.Err? <==> exists i :: 0 <= i < |items| && parseUuid(items[i].productId).None?
    ensures r.Err? ==> r.error.Invalid? && NamesFirstBadId(r.error.errors, items, parseUuid)
  {
    var inputs: seq<ItemInput> := [];
    for i := 0 to |items|
      invariant Carries(inputs, items[..i], newUuid, parseUuid)
      invariant forall j :: 0 <= j < i ==> parseUuid(items[j].productId).Some?
    {
      var item := items[i];
      var productId := parseUuid(item.productId);
      if productId.None? {
        return Err(Invalid([FieldError(ItemField(i, ProductIdPart), "must be a valid UUID")]));
      }
      inputs := inputs + [ItemInput(newUuid(i), productId.value, item.sku, item.quantity, item.unitPriceCents)];
    }
    assert items[..|items|] == items;
    r := Ok(inputs);
  }

  function NewOrderCommand(customerId: Uuid, request: CreateOrderRequest, source: Attribution, totalCents: Int64,
                           items: seq<ItemInput>, orderId: Uuid): Command {
    Command.CreateOrder(orderId, customerId, request.idempotencyKey, totalCents, request.currency, items, source)
  }

  lemma CommandIsFitToSend(customerId: Uuid, request: CreateOrderRequest, source: Attribution, totalCents: Int64,
                           items: seq<ItemInput>, orderId: Uuid, newUuid: nat -> Uuid, parseUuid: UuidParser)
    requires forall field :: !Offends(request, field)
    requires Carries(items, request.items, newUuid, parseUuid) && totalCents == ExactTotal(RequestLines(request.items))
    ensures ServiceSends(NewOrderCommand(customerId, request, source, totalCents, items, orderId))
  {
    ValidRequestMeetsChecks(request);
    assert InputLines(items) == RequestLines(request.items);
    assert !Offends(request, CurrencyField);
  }

  /** The command says what the request says, with the exact total and drawn ids. */
  ghost predicate IsCommandFor(cmd: Command, customerId: Uuid, request: CreateOrderRequest, source: Attribution,
                               newUuid: nat -> Uuid, parseUuid: UuidParser)
  {
    && cmd.CreateOrder?
    && cmd.customerId == customerId && cmd.idempotencyKey == request.idempotencyKey
    && cmd.currency == request.currency && cmd.source == source
    && cmd.totalCents == ExactTotal(RequestLines(request.items))
    && cmd.orderId == newUuid(|request.items|)
    && Carries(cmd.items, request.items, newUuid, parseUuid)
  }

  /** Draws from the generator after the first `n`. */
  function DrawsAfter(newUuid: nat -> Uuid, n: nat): nat -> Uuid {
    (k: nat) => newUuid(n + k)
  }

  /** Why a request is refused before anything is sent: its offending fields, each reported once; else a total
      that does not fit; else the first product id that does not parse. */
  ghost predicate RefusesFor(error: ServiceError, request: CreateOrderRequest, parseUuid: UuidParser) {
    if exists field :: Offends(request, field) then
      && error.Invalid? && ReportsOnce(error.errors)
      && forall field :: Reports(error.errors, field) <==> Offends(request, field)
    else if ExactTotal(RequestLines(request.items)) > MAX_INT64 then error.TotalOverflow?
    else error.Invalid? && NamesFirstBadId(error.errors, request.items, parseUuid)
  }

  /** What the service makes of a request: errors found before anything is sent, or the command. */
  method PrepareCreate(customerId: Uuid, request: CreateOrderRequest, source: Attribution, newUuid: nat -> Uuid,
                       parseUuid: UuidParser)
    returns (r: Result<Command, ServiceError>)
    ensures r.Ok? ==>
              ServiceSends(r.value) && IsCommandFor(r.value, customerId, request, source, newUuid, parseUuid)
    ensures r.Ok? <==>
              && (forall field :: !Offends(request, field))
              && ExactTotal(RequestLines(request.items)) <= MAX_INT64
              && (forall i :: 0 <= i < |request.items| ==> parseUuid(request.items[i].productId).Some?)
    ensures r.Err? ==> RefusesFor(r.error, request, parseUuid)
  {
    var errors := ValidateCreateOrderRequest(request);
    if errors != [] {
      return Err(Invalid(errors));
    }
    ValidRequestMeetsChecks(request);
    var total := CalculateTotalCents(RequestLines(request.items));
    if total.Err? {
      return Err(TotalOverflow);
    }
    var items := BuildItems(request.items, newUuid, parseUuid);
    if items.Err? {
      return Err(items.error);
    }
    CommandIsFitToSend(customerId, request, source, total.value, items.value, newUuid(|request.items|), newUuid, parseUuid);
    r := Ok(NewOrderCommand(customerId, request, source, total.value, items.value, newUuid(|request.items|)));
  }

  predicate IsIdempotencyConflictError(error: DbError) {
    error == UniqueViolation(CustomerIdempotencyKey)
  }

  /** The insert of the command, not cut off, finds an order with its pair committed and its own id free. */
  ghost predicate FindsPairTaken(s: State, script: seq<Interlude>, t: TxId, now: Timestamp, cmd: Command)
    requires cmd.CreateOrder?
  {
    var seen := SeenByGuard(s, script, t, now);
    && !BeginFaults(script)
    && (exists id :: id in seen.tables.orders
                     && seen.tables.orders[id].customerId == cmd.customerId
                     && seen.tables.orders[id].idempotencyKey == cmd.idempotencyKey)
    && cmd.orderId !in seen.tables.orders && !RowLocked(seen, t, cmd.orderId)
  }

  /** The order as the customer asked for it, with drawn ids and the time of the transaction. */
  ghost predicate IsAsRequested(created: CreateOrderResult, customerId: Uuid, request: CreateOrderRequest, now: Timestamp,
                                newUuid: nat -> Uuid, parseUuid: UuidParser)
  {
    var n, order := |request.items|, created.order;
    && order.id == newUuid(n) && order.customerId == customerId && order.status == Pending
    && order.idempotencyKey == request.idempotencyKey && order.currency == request.currency
    && order.totalCents == ExactTotal(RequestLines(request.items))
    && (n == 1 ==> order.totalCents == request.items[0].quantity * request.items[0].unitPriceCents)
    && order.createdAt == now && order.updatedAt == now
    && |created.items| == n
    && forall i :: 0 <= i < n ==>
         var row, asked := created.items[i], request.items[i];
         && row.id == newUuid(i) && row.orderId == newUuid(n)
         && parseUuid(asked.productId) == Option.Some(row.productId) && row.sku == asked.sku
         && row.quantity == asked.quantity && row.unitPriceCents == asked.unitPriceCents
         && row.createdAt == now
  }

  lemma StoredIsAsRequested(created: CreateOrderResult, tables: Tables, cmd: Command, customerId: Uuid,
                            request: CreateOrderRequest, source: Attribution, now: Timestamp, newUuid: nat -> Uuid,
                            parseUuid: UuidParser)
    requires IsCommandFor(cmd, customerId, request, source, newUuid, parseUuid) && IsStoredAs(created, tables, cmd, now)
    requires IsCurrencyCode(request.currency)
    ensures IsAsRequested(created, customerId, request, now, newUuid, parseUuid)
  {
    if |request.items| == 1 {
      var line := Line(request.items[0].quantity, request.items[0].unitPriceCents);
      assert RequestLines(request.items) == [line];
      TotalOfOneLine(line);
    }
    forall i | 0 <= i < |request.items| ensures IsLine(created.items[i], cmd.items[i], cmd.orderId, now) {
    }
  }

  /** How a create that has been sent ends: as its transaction does, with the stored order or an error, of which
      the conflict is exactly the one above. */
  ghost predicate CreateEnds(before: State, script: seq<Interlude>, after: State, e: Entry, newUuid: nat -> Uuid,
                             r: Result<CreateOrderResult, ServiceError>)
    requires e.cmd.CreateOrder?
  {
    && Settled(before, after, e.t, r.Ok?, e)
    && (r.Ok? ==> IsStoredAs(r.value, after.tables, e.cmd, e.now))
    && Transaction(before, script, e.t, e.now, e.cmd, newUuid) == Reached(r.Ok?, after)
    && (r == Err(IdempotencyConflict) ==> PairTaken(after.tables.orders, e.cmd.customerId, e.cmd.idempotencyKey))
    && (r == Err(IdempotencyConflict) <==> FindsPairTaken(before, script, e.t, e.now, e.cmd))
  }

  function CreateEntry(t: TxId, now: Timestamp, cmd: Command, eventId: Uuid): Entry
    requires cmd.CreateOrder?
  {
    Entry(t, cmd, now, [cmd.orderId], [eventId])
  }

  /** Hands the command to the repository and names the idempotency conflict. */
  method SendCreate(db: Database, t: TxId, now: Timestamp, cmd: Command, newUuid: nat -> Uuid)
    returns (r: Result<CreateOrderResult, ServiceError>)
    requires db.Valid() && t !in db.state.used && cmd.CreateOrder? && ServiceSends(cmd)
    modifies db
    ensures db.Valid()
    ensures CreateEnds(old(db.state), old(db.script), db.state, CreateEntry(t, now, cmd, newUuid(0)), newUuid, r)
    ensures old(Alone(db, t)) ==>
              EndsAlone(old(db.state), db.state, db.script, r.Ok?, CreateEntry(t, now, cmd, newUuid(0)))
  {
    assert Drawn(newUuid, 1) == [newUuid(0)];
    assert cmd.totalCents >= 0 by {
      PartialTotalsGrow(InputLines(cmd.items), 0);
    }
    var created := CreateOrderWithItemsAndAudit(db, t, now, cmd, newUuid);
    if created.Err? {
      if IsIdempotencyConflictError(created.error) {
        return Err(IdempotencyConflict);
      }
      return Err(Store(created.error));
    }
    r := Ok(created.value);
  }

  /** Creates the order as a whole or not at all. A conflict is reported exactly when the insert finds an
      order with the customer's key committed. */
  method CreateOrder(db: Database, t: TxId, now: Timestamp, customerId: Uuid, request: CreateOrderRequest,
                     source: Attribution, newUuid: nat -> Uuid, parseUuid: UuidParser)
    returns (r: Result<CreateOrderResult, ServiceError>, ghost sent: Option<Command>)
    requires db.Valid() && t !in db.state.used
    modifies db
    ensures db.Valid()
    ensures sent.None? ==>
              r.Err? && RefusesFor(r.error, request, parseUuid) && db.state == old(db.state) && db.script == old(db.script)
    ensures sent.Some? <==>
              && (forall field :: !Offends(request, field))
              && ExactTotal(RequestLines(request.items)) <= MAX_INT64
              && (forall i :: 0 <= i < |request.items| ==> parseUuid(request.items[i].productId).Some?)
    ensures sent.Some? ==>
              && var cmd, draws := sent.value, DrawsAfter(newUuid, |request.items| + 1);
                 && ServiceSends(cmd) && IsCommandFor(cmd, customerId, request, source, newUuid, parseUuid)
                 && var e := CreateEntry(t, now, cmd, newUuid(|request.items| + 1));
                    && CreateEnds(old(db.state), old(db.script), db.state, e, draws, r)
                    && (old(Alone(db, t)) ==> EndsAlone(old(db.state), db.state, db.script, r.Ok?, e))
    ensures r.Ok? ==> IsAsRequested(r.value, customerId, request, now, newUuid, parseUuid)
  {
    var prepared := PrepareCreate(customerId, request, source, newUuid, parseUuid);
    if prepared.Err? {
      return Err(prepared.error), None;
    }
    sent := Some(prepared.value);
    r := SendCreate(db, t, now, prepared.value, DrawsAfter(newUuid, |request.items| + 1));
    if r.Ok? {
      assert !Offends(request, CurrencyField);
      StoredIsAsRequested(r.value, db.state.tables, prepared.value, customerId, request, source, now, newUuid, parseUuid);
    }
  }

  /** The order is the customer's and still PENDING. */
  predicate Cancellable(orders: map<Uuid, Order>, orderId: Uuid, customerId: Uuid) {
    orderId in orders && orders[orderId].customerId == customerId && orders[orderId].status == Pending
  }

  lemma CancelFits(tables: Tables, t: TxId, cmd: Command, now: Timestamp, newUuid: nat -> Uuid)
    requires cmd.CancelOrder?
    ensures Fits(tables, t, cmd, now, [cmd.orderId], newUuid) <==>
            Cancellable(tables.orders, cmd.orderId, cmd.customerId) && !HasEvent(tables.events, newUuid(0))
  {
    var ids := Drawn(newUuid, 1);
    assert ids[0] == newUuid(0);
    FitsNeedsFreshId(tables.events, ids);
  }

  /** Cancels an owned order. Not found and refused are decided by the unlocked read. After it only the
      guarded update decides, and its error is passed on unmapped: an order that stopped being PENDING
      between the two is reported as a store error. */
  method CancelOrder(db: Database, t: TxId, now: Timestamp, orderId: Uuid, customerId: Uuid, source: Attribution,
                     newUuid: nat -> Uuid)
    returns (r: Result<Order, ServiceError>)
    requires db.Valid() && t !in db.state.used
    modifies db
    ensures db.Valid()
    ensures r.Ok? ==>
              && CommittedBy(old(db.state), db.state, CancelEntry(t, now, orderId, customerId, source, newUuid))
              && orderId in db.state.tables.orders && r.value == db.state.tables.orders[orderId]
              && r.value.status == Cancelled && r.value.id == orderId
              && db.script == Rest(old(db.script), 5)
    ensures r.Err? ==>
              && Absent(db.state, t)
              && (r.error == OrderNotFound || r.error == Refused(InvalidTransition) || r.error.Store?)
    ensures NextFault(old(db.script)) ==> r == Err(Store(Interrupted))
    ensures r == Err(OrderNotFound) <==> IsMissed(old(db.state), old(db.script), t, orderId, customerId)
    ensures r == Err(Refused(InvalidTransition)) <==> IsRefused(old(db.state), old(db.script), t, orderId, customerId)
    ensures r == Err(Store(NoRows)) <==> LosesRace(old(db.state), old(db.script), t, now, orderId, customerId)
    ensures CancelRun(old(db.state), old(db.script), t, now, orderId, customerId, source, newUuid) == Reached(r.Ok?, db.state)
    ensures old(Alone(db, t)) ==>
              && (r.Ok? <==> Cancellable(old(db.state.tables.orders), orderId, customerId)
                             && !HasEvent(old(db.state.tables.events), newUuid(0)))
              && EndsAlone(old(db.state), db.state, db.script, r.Ok?, CancelEntry(t, now, orderId, customerId, source, newUuid))
  {
    var found := db.QueryOrder(t, orderId, customerId);
    db.ValidMeansNamesUsed();
    if found.Err? {
      return Err(Store(found.error));
    }
    if found.value.None? {
      return Err(OrderNotFound);
    }
    StoredStatusIsValid(db, orderId);
    var refused := ValidateTransition(found.value.value.status, Cancelled);
    if refused.Some? {
      return Err(Refused(refused.value));
    }
    CancelFits(db.state.tables, t, Command.CancelOrder(orderId, customerId, source), now, newUuid);
    RestOfRest(old(db.script), 1, 4);
    var cancelled := CancelOrderWithAudit(db, t, now, Command.CancelOrder(orderId, customerId, source), newUuid);
    if cancelled.Err? {
      return Err(Store(cancelled.error));
    }
    StoredRowsValid(db);
    r := Ok(cancelled.value);
  }

  function CancelEntry(t: TxId, now: Timestamp, orderId: Uuid, customerId: Uuid, source: Attribution,
                       newUuid: nat -> Uuid): Entry
  {
    Entry(t, Command.CancelOrder(orderId, customerId, source), now, [orderId], Drawn(newUuid, 1))
  }

  /** The unlocked read does not find an order of the customer. */
  ghost predicate IsMissed(s: State, script: seq<Interlude>, t: TxId, orderId: Uuid, customerId: Uuid) {
    && !NextFault(script)
    && var read := Played(t, s, NextSteps(script)).tables.orders;
       !(orderId in read && read[orderId].customerId == customerId)
  }

  /** The unlocked read finds the customer's order, no longer PENDING: the answer that becomes 409. */
  ghost predicate IsRefused(s: State, script: seq<Interlude>, t: TxId, orderId: Uuid, customerId: Uuid) {
    && !NextFault(script)
    && var read := Played(t, s, NextSteps(script)).tables.orders;
       orderId in read && read[orderId].customerId == customerId && read[orderId].status != Pending
  }

  /** The state a cancel leads to when it is committed: for that the unlocked read must find the order
      cancellable, and then the whole transaction must go through. */
  function CancelRun(s: State, script: seq<Interlude>, t: TxId, now: Timestamp, orderId: Uuid, customerId: Uuid,
                     source: Attribution, newUuid: nat -> Uuid): Option<State>
  {
    var read := Played(t, s, NextSteps(script));
    if NextFault(script) || !Cancellable(read.tables.orders, orderId, customerId) then None
    else Transaction(read, Rest(script, 1), t, now, Command.CancelOrder(orderId, customerId, source), newUuid)
  }

  /** The unlocked read finds the order cancellable and the guarded update, reached without a fault, no
      longer does. */
  ghost predicate LosesRace(s: State, script: seq<Interlude>, t: TxId, now: Timestamp, orderId: Uuid, customerId: Uuid) {
    var read := Played(t, s, NextSteps(script));
    var seen := SeenByGuard(read, Rest(script, 1), t, now);
    && !NextFault(script) && !BeginFaults(Rest(script, 1))
    && Cancellable(read.tables.orders, orderId, customerId)
    && !Cancellable(seen.tables.orders, orderId, customerId)
  }

  lemma StoredStatusIsValid(db: Database, id: Uuid)
    requires db.Valid() && id in db.state.tables.orders
    ensures IsValidStatus(db.state.tables.orders[id].status)
    ensures CanTransition(db.state.tables.orders[id].status, Cancelled) <==> db.state.tables.orders[id].status == Pending
  {
    db.ValidMeansSerial();
    CommittedTablesSatisfySchema(db.state.log);
    InferredPredecessorIsUnique(db.state.tables.orders[id].status, Cancelled);
  }

  predicate IsPrivileged(actor: ActorType) {
    actor == Admin || actor == System
  }

  /** Tells a missing order from a refused transition by looking for the order's events. */
  method ResolveStatusUpdateNoRows(db: Database, t: TxId, orderId: Uuid) returns (error: ServiceError)
    requires db.Valid() && Absent(db.state, t)
    modifies db
    ensures db.Valid() && Absent(db.state, t)
    ensures db.state == Played(t, old(db.state), NextSteps(old(db.script))) && db.script == Rest(old(db.script), 1)
    ensures error == if NextFault(old(db.script)) then Store(Interrupted)
                     else if orderId in db.state.tables.orders then Refused(InvalidTransition)
                     else OrderNotFound
  {
    var events := db.QueryEvents(t, orderId);
    if events.Err? {
      return Store(events.error);
    }
    db.ValidMeansSerial();
    OrdersHaveEvents(db.state.log, orderId);
    assert |multiset(events.value)| == |multiset(EventsOf(db.state.tables.events, orderId))|;
    error := if |events.value| == 0 then OrderNotFound else Refused(InvalidTransition);
  }

  /** The guarded update, reached without a cut-off, finds no row with the expected status. */
  ghost predicate FindsNoRow(s: State, script: seq<Interlude>, t: TxId, now: Timestamp, cmd: Command) {
    ServiceSends(cmd) && !BeginFaults(script) && !RowMatches(SeenByGuard(s, script, t, now).tables.orders, cmd)
  }

  /** What the lookup after such an update finds. */
  function SeenByLookup(s: State, script: seq<Interlude>, t: TxId, now: Timestamp): State {
    Played(t, Close(SeenByGuard(s, script, t, now), t), NextSteps(Rest(script, 2)))
  }

  /** Not found and refused for every script: a request outside the graph is refused at once; one whose update
      finds no row is not found or refused by what the lookup then finds. No other error means no row. */
  ghost predicate ResolvesNoRow(s: State, script: seq<Interlude>, t: TxId, now: Timestamp, cmd: Command,
                                failure: Option<ServiceError>)
    requires cmd.UpdateStatus?
  {
    var looked := FindsNoRow(s, script, t, now, cmd) && !NextFault(Rest(script, 2));
    var found := cmd.orderId in SeenByLookup(s, script, t, now).tables.orders;
    && (failure == Some(OrderNotFound) <==> looked && !found)
    && (failure == Some(Refused(InvalidTransition)) <==>
          || (IsPrivileged(cmd.actorType) && ValidateTransition(cmd.expected, cmd.next) == Some(InvalidTransition))
          || (looked && found))
    && failure != Some(Store(NoRows))
  }

  /** The state a status update leads to when it is committed. */
  function UpdateRun(s: State, script: seq<Interlude>, t: TxId, now: Timestamp, cmd: Command, newUuid: nat -> Uuid): Option<State>
    requires cmd.UpdateStatus?
  {
    if !IsPrivileged(cmd.actorType) || !CanTransition(cmd.expected, cmd.next) then None
    else Transaction(s, script, t, now, cmd, newUuid)
  }

  /** Compare-and-set on behalf of a privileged actor, recorded in the audit log. */
  method UpdateOrderStatus(db: Database, t: TxId, now: Timestamp, cmd: Command, newUuid: nat -> Uuid)
    returns (r: Result<Order, ServiceError>)
    requires db.Valid() && t !in db.state.used && cmd.UpdateStatus?
    modifies db
    ensures db.Valid()
    ensures r.Ok? ==>
              && ServiceSends(cmd)
              && CommittedBy(old(db.state), db.state, Entry(t, cmd, now, [cmd.orderId], Drawn(newUuid, 1)))
              && cmd.orderId in db.state.tables.orders && r.value == db.state.tables.orders[cmd.orderId]
              && r.value.id == cmd.orderId && r.value.status == cmd.next
              && db.script == Rest(old(db.script), 4)
    ensures r.Err? ==> Absent(db.state, t)
    ensures !ServiceSends(cmd) ==> r.Err? && db.state == old(db.state)
    ensures UpdateRun(old(db.state), old(db.script), t, now, cmd, newUuid) == Reached(r.Ok?, db.state)
    ensures r == Err(InvalidActorType) <==> cmd.actorType != Admin && cmd.actorType != System
    ensures r == Err(OrderNotFound) ==> cmd.orderId !in db.state.tables.orders
    ensures ResolvesNoRow(old(db.state), old(db.script), t, now, cmd, FailureOf(r))
    ensures old(Alone(db, t)) ==>
              && (ServiceSends(cmd) ==> (r.Ok? <==> Fits(old(db.state.tables), t, cmd, now, [cmd.orderId], newUuid)))
              && db.script == []
              && SettledAlone(old(db.state), db.state, r.Ok?, Entry(t, cmd, now, [cmd.orderId], Drawn(newUuid, 1)))
  {
    db.ValidMeansNamesUsed();
    if !IsPrivileged(cmd.actorType) {
      return Err(InvalidActorType);
    }
    var refused := ValidateTransition(cmd.expected, cmd.next);
    if refused.Some? {
      return Err(Refused(refused.value));
    }
    var updated := UpdateOrderStatusWithAudit(db, t, now, cmd, newUuid);
    if updated.Err? {
      if updated.error == NoRows {
        var error := ResolveStatusUpdateNoRows(db, t, cmd.orderId);
        return Err(error);
      }
      return Err(Store(updated.error));
    }
    StoredRowsValid(db);
    r := Ok(updated.value);
  }

  // ---- Answers with the order's lines ----

  datatype OrderDetails = OrderDetails(order: Order, items: seq<OrderItem>)

  /** The order with its stored lines, listed by age. */
  ghost predicate Describes(details: OrderDetails, order: Order, tables: Tables) {
    && details.order == order
    && multiset(details.items) == multiset(ItemsOfOrder(tables.items, order.id)) && ItemsByAge(details.items)
  }

  /** The item read that follows a committed update. It is not part of the transaction. */
  method AddItems(db: Database, t: TxId, order: Order) returns (r: Result<OrderDetails, ServiceError>)
    requires db.Valid()
    modifies db
    ensures db.Valid() && old(db.state.log) <= db.state.log
    ensures db.state == Played(t, old(db.state), NextSteps(old(db.script))) && db.script == Rest(old(db.script), 1)
    ensures if NextFault(old(db.script)) then r == Err(Store(Interrupted))
            else r.Ok? && Describes(r.value, order, db.state.tables)
  {
    var items := db.QueryItems(t, order.id);
    r := if items.Err? then Err(Store(items.error)) else Ok(OrderDetails(order, items.value));
  }

  /** How an operation answers that reads the lines after its transaction of `n` statements. `run` is where
      its transaction leads: nowhere, and the answer is an error and nothing is committed; or to a state with
      `e` committed, and then the answer is an error exactly if the item read that follows is cut off. */
  ghost predicate Answered(before: State, script: seq<Interlude>, n: nat, e: Entry, run: Option<State>, after: State,
                           r: Result<OrderDetails, ServiceError>)
  {
    match run
    case None => r.Err? && Absent(after, e.t)
    case Some(committed) =>
      && CommittedBy(before, committed, e)
      && committed.log <= after.log && after == Played(e.t, committed, NextSteps(Rest(script, n)))
      && if NextFault(Rest(script, n)) then r == Err(Store(Interrupted))
         else
           && r.Ok?
           && r.value.order.id in committed.tables.orders
           && Describes(r.value, committed.tables.orders[r.value.order.id], after.tables)
  }

  method CancelOrderDetails(db: Database, t: TxId, now: Timestamp, orderId: Uuid, customerId: Uuid, source: Attribution,
                            newUuid: nat -> Uuid)
    returns (r: Result<OrderDetails, ServiceError>)
    requires db.Valid() && t !in db.state.used
    modifies db
    ensures db.Valid()
    ensures Answered(old(db.state), old(db.script), 5, CancelEntry(t, now, orderId, customerId, source, newUuid),
                     CancelRun(old(db.state), old(db.script), t, now, orderId, customerId, source, newUuid), db.state, r)
    ensures r.Ok? ==> r.value.order.id == orderId && r.value.order.status == Cancelled
    ensures NextFault(old(db.script)) ==> r == Err(Store(Interrupted))
    ensures r == Err(OrderNotFound) <==> IsMissed(old(db.state), old(db.script), t, orderId, customerId)
    ensures r == Err(Refused(InvalidTransition)) <==> IsRefused(old(db.state), old(db.script), t, orderId, customerId)
    ensures r == Err(Store(NoRows)) <==> LosesRace(old(db.state), old(db.script), t, now, orderId, customerId)
    ensures old(Alone(db, t)) ==>
              && (r.Ok? <==> Cancellable(old(db.state.tables.orders), orderId, customerId)
                             && !HasEvent(old(db.state.tables.events), newUuid(0)))
              && EndsAlone(old(db.state), db.state, db.script, r.Ok?, CancelEntry(t, now, orderId, customerId, source, newUuid))
  {
    var order := CancelOrder(db, t, now, orderId, customerId, source, newUuid);
    if order.Err? {
      return Err(order.error);
    }
    r := AddItems(db, t, order.value);
  }

  method UpdateOrderStatusDetails(db: Database, t: TxId, now: Timestamp, cmd: Command, newUuid: nat -> Uuid)
    returns (r: Result<OrderDetails, ServiceError>)
    requires db.Valid() && t !in db.state.used && cmd.UpdateStatus?
    modifies db
    ensures db.Valid()
    ensures Answered(old(db.state), old(db.script), 4, Entry(t, cmd, now, [cmd.orderId], Drawn(newUuid, 1)),
                     UpdateRun(old(db.state), old(db.script), t, now, cmd, newUuid), db.state, r)
    ensures r.Ok? ==> r.value.order.id == cmd.orderId && r.value.order.status == cmd.next
    ensures r == Err(InvalidActorType) <==> cmd.actorType != Admin && cmd.actorType != System
    ensures r == Err(OrderNotFound) ==> cmd.orderId !in db.state.tables.orders
    ensures ResolvesNoRow(old(db.state), old(db.script), t, now, cmd, FailureOf(r))
    ensures old(Alone(db, t)) ==>
              && (ServiceSends(cmd) ==> (r.Ok? <==> Fits(old(db.state.tables), t, cmd, now, [cmd.orderId], newUuid)))
              && db.script == []
              && SettledAlone(old(db.state), db.state, r.Ok?, Entry(t, cmd, now, [cmd.orderId], Drawn(newUuid, 1)))
  {
    var order := UpdateOrderStatus(db, t, now, cmd, newUuid);
    if order.Err? {
      return Err(order.error);
    }
    r := AddItems(db, t, order.value);
  }

  /** The command that the privileged endpoint sends: the expected status is inferred from the target. */
  function TargetCommand(orderId: Uuid, target: OrderStatus, actor: ActorType, source: Attribution): Command
    requires ExpectedStatusForTarget(target).Ok?
  {
    UpdateStatus(orderId, ExpectedStatusForTarget(target).value, target, actor, source)
  }

  /** The privileged endpoint names only the target. Undisturbed, it moves the order exactly when the order
      exists and the graph has the edge from its present status. */
  method UpdateOrderStatusByTarget(db: Database, t: TxId, now: Timestamp, orderId: Uuid, target: OrderStatus,
                                   actor: ActorType, source: Attribution, newUuid: nat -> Uuid)
    returns (r: Result<OrderDetails, ServiceError>)
    requires db.Valid() && t !in db.state.used
    modifies db
    ensures db.Valid()
    ensures ExpectedStatusForTarget(target).Err? ==>
              r == Err(Refused(ExpectedStatusForTarget(target).error)) && db.state == old(db.state) && db.script == old(db.script)
    ensures ExpectedStatusForTarget(target).Ok? ==>
              var cmd := UpdateStatus(orderId, ExpectedStatusForTarget(target).value, target, actor, source);
              var e := Entry(t, cmd, now, [orderId], Drawn(newUuid, 1));
              && Answered(old(db.state), old(db.script), 4, e,
                          UpdateRun(old(db.state), old(db.script), t, now, cmd, newUuid), db.state, r)
              && ResolvesNoRow(old(db.state), old(db.script), t, now, cmd, FailureOf(r))
              && (r == Err(InvalidActorType) <==> actor != Admin && actor != System)
              && (old(Alone(db, t)) ==> db.script == [] && SettledAlone(old(db.state), db.state, r.Ok?, e))
    ensures r.Ok? ==> r.value.order.id == orderId && r.value.order.status == target
    ensures r == Err(OrderNotFound) ==> orderId !in db.state.tables.orders
    ensures old(Alone(db, t)) ==>
              (r.Ok? <==> TargetFits(old(db.state.tables), orderId, target, actor, newUuid(0)))
  {
    var expected := ExpectedStatusForTarget(target);
    TargetFitsExactly(db, t, now, orderId, target, actor, source, newUuid);
    if expected.Err? {
      return Err(Refused(expected.error));
    }
    r := UpdateOrderStatusDetails(db, t, now, TargetCommand(orderId, target, actor, source), newUuid);
  }

  /** Read-then-validate: a privileged actor, an existing order and an edge from its present status. */
  predicate TargetFits(tables: Tables, orderId: Uuid, target: OrderStatus, actor: ActorType, eventId: Uuid) {
    && (actor == Admin || actor == System) && orderId in tables.orders
    && CanTransition(tables.orders[orderId].status, target) && !HasEvent(tables.events, eventId)
  }

  lemma TargetFitsExactly(db: Database, t: TxId, now: Timestamp, orderId: Uuid, target: OrderStatus, actor: ActorType,
                          source: Attribution, newUuid: nat -> Uuid)
    ensures TargetFits(db.state.tables, orderId, target, actor, newUuid(0)) <==>
            && IsPrivileged(actor) && ExpectedStatusForTarget(target).Ok?
            && ServiceSends(TargetCommand(orderId, target, actor, source))
            && Fits(db.state.tables, t, TargetCommand(orderId, target, actor, source), now, [orderId], newUuid)
    ensures ExpectedStatusForTarget(target).Ok? ==>
              CanTransition(ExpectedStatusForTarget(target).value, target)
  {
    if orderId in db.state.tables.orders {
      InferredPredecessorIsUnique(db.state.tables.orders[orderId].status, target);
    }
    if ExpectedStatusForTarget(target).Ok? {
      InferredPredecessorIsUnique(ExpectedStatusForTarget(target).value, target);
      if IsPrivileged(actor) {
        UpdateFits(db.state.tables, t, TargetCommand(orderId, target, actor, source), now, newUuid);
      }
    }
  }

  lemma FitsNeedsFreshId(events: seq<OrderEvent>, ids: seq<Uuid>)
    requires |ids| == 1
    ensures EventIdsFit(events, ids) <==> !HasEvent(events, ids[0])
  {
  }

  lemma UpdateFits(tables: Tables, t: TxId, cmd: Command, now: Timestamp, newUuid: nat -> Uuid)
    requires cmd.UpdateStatus? && ServiceSends(cmd)
    ensures Fits(tables, t, cmd, now, [cmd.orderId], newUuid) <==>
            && cmd.orderId in tables.orders && tables.orders[cmd.orderId].status == cmd.expected
            && !HasEvent(tables.events, newUuid(0))
  {
    var ids := Drawn(newUuid, 1);
    assert ids[0] == newUuid(0);
    FitsNeedsFreshId(tables.events, ids);
  }

  /** One batch of the background worker. */
  method ProcessPendingOrdersBatch(db: Database, t: TxId, now: Timestamp, limit: Int32, source: Attribution,
                                   newUuid: nat -> Uuid)
    returns (r: Result<seq<Order>, ServiceError>, ghost moved: seq<Uuid>)
    requires db.Valid() && t !in db.state.used
    modifies db
    ensures db.Valid()
    ensures Settled(old(db.state), db.state, t, r.Ok?,
                    Entry(t, ProcessBatch(limit, source), now, moved, Drawn(newUuid, |moved|)))
    ensures var cmd := ProcessBatch(limit, source);
            && Transaction(old(db.state), old(db.script), t, now, cmd, newUuid) == Reached(r.Ok?, db.state)
            && (r.Ok? ==>
                  && moved == MovedBy(SeenByGuard(old(db.state), old(db.script), t, now), t, cmd)
                  && PicksOldestUnlocked(SeenByGuard(old(db.state), old(db.script), t, now), t, limit, moved))
    ensures r.Ok? ==>
              && |r.value| == |moved| <= limit
              && forall i :: 0 <= i < |moved| ==>
                   && moved[i] in db.state.tables.orders
                   && r.value[i] == db.state.tables.orders[moved[i]]
                   && r.value[i].id == moved[i] && r.value[i].status == Processing
    ensures old(Alone(db, t)) ==>
              var cmd := ProcessBatch(limit, source);
              && EndsAlone(old(db.state), db.state, db.script, r.Ok?, OldestBatch(old(db.state), t, now, cmd, newUuid))
              && (r.Ok? ==> moved == MovedAlone(old(db.state.tables.orders), cmd))
  {
    // The check of the PENDING -> PROCESSING edge that comes first always passes.
    assert ValidateTransition(Pending, Processing).None?;
    var batch;
    batch, moved := ProcessPendingOrdersBatchWithAudit(db, t, now, ProcessBatch(limit, source), newUuid);
    if batch.Err? {
      return Err(Store(batch.error)), moved;
    }
    r := Ok(batch.value);
  }
}
