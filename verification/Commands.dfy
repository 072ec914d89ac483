/** The four write commands of the repository (internal/orders/repository.go) and the audit event each one writes. */
module Commands {
  import opened Wrappers
  import opened Ids
  import opened Clock
  import opened StateMachine
  import opened Schema

  type TxId = nat

  datatype ItemInput = ItemInput(id: Uuid, productId: Uuid, sku: string, quantity: Int32, unitPriceCents: Int64)

  datatype Command =
    | CreateOrder(orderId: Uuid, customerId: Uuid, idempotencyKey: string, totalCents: Int64,
                  currency: string, items: seq<ItemInput>, source: Attribution)
    | CancelOrder(orderId: Uuid, customerId: Uuid, source: Attribution)
    | UpdateStatus(orderId: Uuid, expected: OrderStatus, next: OrderStatus, actorType: ActorType, source: Attribution)
    | ProcessBatch(limit: Int32, source: Attribution)

  datatype Constraint = OrdersPkey | CustomerIdempotencyKey | ItemsPkey | EventsPkey

  datatype DbError =
    | NoRows
    | UniqueViolation(constraint: Constraint)
    | CheckViolation
    | StringTooLong
    | ForeignKeyViolation
    | InvalidLimit
    | Interrupted  // connection loss, cancelled context, deadlock victim, failed commit

  function ItemsOf(cmd: Command): seq<ItemInput> {
    if cmd.CreateOrder? then cmd.items else []
  }

  datatype EventParams = EventParams(orderId: Uuid, actorType: ActorType, source: Attribution,
                                     from: Option<OrderStatus>, to: Option<OrderStatus>, action: Action)

  /** The parameters each repository method passes to `CreateOrderEvent` for one order. */
  function AuditEvent(cmd: Command, orderId: Uuid): EventParams {
    match cmd
    case CreateOrder(_, _, _, _, _, _, source) =>
      EventParams(orderId, Customer, source, None, Some(Pending), ActionCreated)
    case CancelOrder(_, _, source) =>
      EventParams(orderId, Customer, source, Some(Pending), Some(Cancelled), ActionCancelled)
    case UpdateStatus(_, expected, next, actorType, source) =>
      EventParams(orderId, actorType, source, Some(expected), Some(next), ActionStatusUpdated)
    case ProcessBatch(_, source) =>
      EventParams(orderId, System, source, Some(Pending), Some(Processing), ActionWorkerMovedToProcessing)
  }

  /** A row of order_events as `INSERT ... RETURNING` produces it. */
  function EventRow(params: EventParams, id: Uuid, now: Timestamp): OrderEvent {
    OrderEvent(id, params.orderId, params.actorType, params.source, params.from, params.to, params.action, now)
  }

  function ItemRow(input: ItemInput, orderId: Uuid, now: Timestamp): OrderItem {
    OrderItem(input.id, orderId, input.productId, input.sku, input.quantity, input.unitPriceCents, now)
  }
}
