/** The tables and their constraints (db/migrations/000001_init_oms_schema.up.sql, internal/db/models.go). */
module Schema {
  import opened Wrappers
  import opened Ids
  import opened Clock
  import opened StateMachine
  import opened Sorting

  const MAX_INT64: int := 0x7FFF_FFFF_FFFF_FFFF

  type Int64 = x: int | -MAX_INT64 - 1 <= x <= MAX_INT64
  type Int32 = x: int | -0x8000_0000 <= x <= 0x7FFF_FFFF

  datatype ActorType = Customer | Admin | System | OtherActor(name: string)

  datatype Action = ActionCreated | ActionCancelled | ActionStatusUpdated | ActionWorkerMovedToProcessing

  /** Who asked for a change, carried unread into the audit event. */
  datatype Attribution = Attribution(actorId: Option<Uuid>, reason: Option<string>, ipAddress: Option<string>)

  datatype Order = Order(id: Uuid, customerId: Uuid, status: OrderStatus, idempotencyKey: string,
                         totalCents: Int64, currency: string, createdAt: Timestamp, updatedAt: Timestamp)

  datatype OrderItem = OrderItem(id: Uuid, orderId: Uuid, productId: Uuid, sku: string,
                                 quantity: Int32, unitPriceCents: Int64, createdAt: Timestamp)

  datatype OrderEvent = OrderEvent(id: Uuid, orderId: Uuid, actorType: ActorType, source: Attribution,
                                   from: Option<OrderStatus>, to: Option<OrderStatus>,
                                   action: Action, createdAt: Timestamp)

  /** Items and events are listed in the order in which they were committed. That order is not a
      column; `createdAt` is the start of the writing transaction. */
  datatype Tables = Tables(orders: map<Uuid, Order>, items: seq<OrderItem>, events: seq<OrderEvent>)

  const EMPTY_TABLES := Tables(map[], [], [])

  predicate HasItem(items: seq<OrderItem>, id: Uuid) {
    exists i :: 0 <= i < |items| && items[i].id == id
  }

  predicate HasEvent(events: seq<OrderEvent>, id: Uuid) {
    exists i :: 0 <= i < |events| && events[i].id == id
  }

  /** UNIQUE (customer_id, idempotency_key) is already taken. */
  predicate PairTaken(orders: map<Uuid, Order>, customerId: Uuid, key: string) {
    exists id | id in orders :: orders[id].customerId == customerId && orders[id].idempotencyKey == key
  }

  predicate IsBlank(text: string) {
    forall i :: 0 <= i < |text| ==> text[i] == ' '
  }

  function Spaces(n: nat): (text: string)
    ensures |text| == n
  {
    seq(n, i => ' ')
  }

  /** Assignment to CHAR(3): short values are padded, spaces beyond the width are dropped, and any
      other excess is an error. */
  function ToChar3(text: string): Option<string> {
    if |text| <= 3 then Some(text + Spaces(3 - |text|))
    else if IsBlank(text[3..]) then Some(text[..3])
    else None
  }

  predicate ActorAllowed(actor: ActorType) {
    actor == Customer || actor == Admin || actor == System
  }

  predicate ItemAllowed(quantity: int, unitPriceCents: int) {
    quantity > 0 && unitPriceCents >= 0
  }

  /** `ORDER BY created_at ASC, id ASC` as one number. */
  function OldestFirstKeys(orders: map<Uuid, Order>): map<Uuid, int> {
    map id | id in orders :: Append(Rank(orders[id].createdAt), UUID_LIMIT, id)
  }

  /** `ORDER BY created_at DESC, id DESC` as one number. */
  function NewestFirstKeys(orders: map<Uuid, Order>): map<Uuid, int> {
    map id | id in orders :: -Append(Rank(orders[id].createdAt), UUID_LIMIT, id)
  }

  lemma SortKeysAreDistinct(orders: map<Uuid, Order>)
    ensures DistinctKeys(OldestFirstKeys(orders)) && DistinctKeys(NewestFirstKeys(orders))
  {
    forall a, b | a in orders && b in orders && a != b
      ensures OldestFirstKeys(orders)[a] != OldestFirstKeys(orders)[b]
    {
      AppendOrder(Rank(orders[a].createdAt), Rank(orders[b].createdAt), UUID_LIMIT, a, b);
      AppendOrder(Rank(orders[b].createdAt), Rank(orders[a].createdAt), UUID_LIMIT, b, a);
    }
  }

  /** The numbers compare as the SQL row comparison `(created_at, id)` does. */
  lemma SortKeyIsRowOrder(orders: map<Uuid, Order>, a: Uuid, b: Uuid)
    requires a in orders && b in orders
    ensures OldestFirstKeys(orders)[a] < OldestFirstKeys(orders)[b] <==>
            || Before(orders[a].createdAt, orders[b].createdAt)
            || (orders[a].createdAt == orders[b].createdAt && a < b)
    ensures NewestFirstKeys(orders)[a] == -OldestFirstKeys(orders)[a]
  {
    AppendOrder(Rank(orders[a].createdAt), Rank(orders[b].createdAt), UUID_LIMIT, a, b);
    if Rank(orders[a].createdAt) == Rank(orders[b].createdAt) {
      RankIsInjective(orders[a].createdAt, orders[b].createdAt);
    }
  }

  /** Created earlier, or at the same time with the smaller id. */
  predicate Older(orders: map<Uuid, Order>, a: Uuid, b: Uuid) {
    && a in orders && b in orders
    && (|| Before(orders[a].createdAt, orders[b].createdAt)
        || (orders[a].createdAt == orders[b].createdAt && a < b))
  }

  function PendingIds(orders: map<Uuid, Order>): (ids: set<Uuid>)
    ensures ids <= orders.Keys
  {
    set id | id in orders && orders[id].status == Pending
  }

  function Take<T>(s: seq<T>, n: nat): seq<T> {
    if |s| <= n then s else s[..n]
  }

  function OldestFirst(orders: map<Uuid, Order>, ids: set<Uuid>): (s: seq<Uuid>)
    requires ids <= orders.Keys
    ensures SameElements(s, ids) && |s| == |ids| && StrictlyAscending(OldestFirstKeys(orders), s)
  {
    SortKeysAreDistinct(orders);
    Ascending(OldestFirstKeys(orders), ids)
  }

  function NewestFirst(orders: map<Uuid, Order>, ids: set<Uuid>): (s: seq<Uuid>)
    requires ids <= orders.Keys
    ensures SameElements(s, ids) && |s| == |ids| && StrictlyAscending(NewestFirstKeys(orders), s)
  {
    SortKeysAreDistinct(orders);
    Ascending(NewestFirstKeys(orders), ids)
  }
}
