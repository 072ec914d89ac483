/** The worker empties PENDING oldest first (internal/db/orders.sql.go:466-483). */
module Drain {
  import opened Wrappers
  import opened Ids
  import opened Clock
  import opened StateMachine
  import opened Schema
  import opened Sorting
  import opened Commands
  import opened AtomicSpec
  import opened Transactions
  import opened Integrity
  import opened Server
  import opened Repository
  import opened Service
  import opened Numbers
  import Text

  predicate IsBatch(cmd: Command) {
    cmd.ProcessBatch? && cmd.limit >= 1
  }

  /** The PENDING orders, oldest first. */
  function Queue(orders: map<Uuid, Order>): seq<Uuid> {
    OldestFirst(orders, PendingIds(orders))
  }

  /** With no PENDING row locked by another transaction, a batch is the front of the queue, whatever
      other locks there are. */
  lemma UndisturbedBatchIsFrontOfQueue(s: State, t: TxId, cmd: Command)
    requires IsBatch(cmd)
    requires forall id :: id in PendingIds(s.tables.orders) ==> !RowLocked(s, t, id)
    ensures GuardOutcome(s, t, cmd) == Done(Take(Queue(s.tables.orders), cmd.limit))
  {
    assert Pickable(s, t) == PendingIds(s.tables.orders);
  }

  lemma FrontHoldsGuard(orders: map<Uuid, Order>, cmd: Command)
    requires IsBatch(cmd)
    ensures MovedAlone(orders, cmd) == Take(Queue(orders), cmd.limit)
    ensures GuardHolds(orders, cmd, MovedAlone(orders, cmd))
  {
    TakenAreElements(OldestFirstKeys(orders), PendingIds(orders), Queue(orders), cmd.limit);
  }

  function Drop<T>(s: seq<T>, n: nat): seq<T> {
    if |s| <= n then [] else s[n..]
  }

  // ---- One batch ----

  lemma KeysAreAge(orders: map<Uuid, Order>, after: map<Uuid, Order>)
    requires orders.Keys == after.Keys && forall id :: id in orders ==> orders[id].createdAt == after[id].createdAt
    ensures OldestFirstKeys(after) == OldestFirstKeys(orders)
  {
  }

  /** A batch changes no sort key. */
  lemma BatchKeepsKeys(tables: Tables, e: Entry)
    requires Allowed(tables, e) && IsBatch(e.cmd)
    ensures OldestFirstKeys(Apply(tables, e).orders) == OldestFirstKeys(tables.orders)
  {
    KeysAreAge(tables.orders, Apply(tables, e).orders);
  }

  /** A batch takes from PENDING exactly what it moves. */
  lemma BatchTakesFromPending(tables: Tables, e: Entry)
    requires Allowed(tables, e) && IsBatch(e.cmd)
    ensures forall id :: id in PendingIds(Apply(tables, e).orders) <==> id in PendingIds(tables.orders) && id !in e.moved
  {
  }

  lemma RestOfQueue(orders: map<Uuid, Order>, k: nat, rest: set<Uuid>)
    requires k <= |PendingIds(orders)|
    requires forall id :: id in rest <==> id in PendingIds(orders) && id !in Queue(orders)[..k]
    ensures rest <= orders.Keys
    ensures DistinctKeys(OldestFirstKeys(orders))
    ensures Ascending(OldestFirstKeys(orders), rest) == Queue(orders)[k..]
  {
    SortKeysAreDistinct(orders);
    AscendingOfRest(OldestFirstKeys(orders), PendingIds(orders), k, rest);
  }

  lemma TakeAndDrop(s: seq<Uuid>, n: nat)
    ensures Take(s, n) == s[..Min(n, |s|)] && Drop(s, n) == s[Min(n, |s|)..]
  {
  }

  lemma SameIds(a: seq<Uuid>, b: seq<Uuid>)
    requires multiset(a) == multiset(b)
    ensures |a| == |b| && forall id :: id in a <==> id in b
  {
    assert |multiset(a)| == |multiset(b)|;
    forall id ensures id in a <==> id in b {
      assert id in a <==> id in multiset(a);
      assert id in b <==> id in multiset(b);
    }
  }

  /** A batch takes the front off the queue and leaves the rest in place. */
  lemma BatchLeavesRestOfQueue(tables: Tables, e: Entry)
    requires Allowed(tables, e) && IsBatch(e.cmd)
    requires multiset(e.moved) == multiset(Take(Queue(tables.orders), e.cmd.limit))
    ensures Queue(Apply(tables, e).orders) == Drop(Queue(tables.orders), e.cmd.limit)
  {
    var limit := e.cmd.limit;
    BatchKeepsKeys(tables, e);
    BatchTakesFromPending(tables, e);
    SameIds(e.moved, Take(Queue(tables.orders), limit));
    TakeAndDrop(Queue(tables.orders), limit);
    RestOfQueue(tables.orders, Min(limit, |PendingIds(tables.orders)|), PendingIds(Apply(tables, e).orders));
  }

  // ---- Pieces of the queue ----

  /** `i * limit`: where the `i`-th piece starts. */
  function Offset(i: nat, limit: nat): nat {
    if i == 0 then 0 else limit + Offset(i - 1, limit)
  }

  lemma {:induction false} OffsetIsProduct(i: nat, limit: nat)
    ensures Offset(i, limit) == i * limit
  {
    if i > 0 {
      OffsetIsProduct(i - 1, limit);
      assert limit + (i - 1) * limit == i * limit;
    }
  }

  /** The `i`-th piece of a list cut into pieces of `limit`. */
  function Piece(s: seq<Uuid>, limit: nat, i: nat): seq<Uuid> {
    Take(Drop(s, Offset(i, limit)), limit)
  }

  lemma {:induction false} OffsetsAreApart(i: nat, j: nat, limit: nat)
    requires i < j
    ensures Offset(i, limit) + limit <= Offset(j, limit)
    decreases j
  {
    if i < j - 1 {
      OffsetsAreApart(i, j - 1, limit);
    }
  }

  lemma PieceCount(n: nat, limit: nat, i: nat)
    requires limit >= 1
    ensures i * limit < n <==> i < (n + limit - 1) / limit
  {
    var q, r := (n + limit - 1) / limit, (n + limit - 1) % limit;
    assert n + limit - 1 == q * limit + r;
    Text.ProductsOrder(i + 1, q, limit);
    Text.ProductsOrder(q, i, limit);
  }

  /** ceil(n / limit) */
  function BatchesNeeded(n: nat, limit: nat): nat
    requires limit >= 1
  {
    (n + limit - 1) / limit
  }

  /** A piece is empty exactly from the ceil(n / limit)-th on. */
  lemma PieceIsEmptyAtTheEnd(s: seq<Uuid>, limit: nat, i: nat)
    requires limit >= 1
    ensures Piece(s, limit, i) != [] <==> i < BatchesNeeded(|s|, limit)
  {
    OffsetIsProduct(i, limit);
    PieceCount(|s|, limit, i);
  }

  /** The queue lists exactly the stored PENDING orders, by age. */
  lemma QueueIsByAge(orders: map<Uuid, Order>)
    ensures forall id :: id in Queue(orders) <==> id in orders && orders[id].status == Pending
    ensures forall i, j :: 0 <= i < j < |Queue(orders)| ==> Older(orders, Queue(orders)[i], Queue(orders)[j])
  {
    var queue := Queue(orders);
    forall i, j | 0 <= i < j < |queue| ensures Older(orders, queue[i], queue[j]) {
      assert queue[i] in queue && queue[j] in queue;
      SortKeyIsRowOrder(orders, queue[i], queue[j]);
    }
  }

  /** Every order of an earlier piece is older than every order of a later one. */
  lemma EarlierPieceIsOlder(orders: map<Uuid, Order>, limit: nat, i: nat, j: nat)
    requires i < j
    ensures forall a, b :: a in Piece(Queue(orders), limit, i) && b in Piece(Queue(orders), limit, j) ==> Older(orders, a, b)
  {
    var queue := Queue(orders);
    QueueIsByAge(orders);
    OffsetsAreApart(i, j, limit);
    forall a, b | a in Piece(queue, limit, i) && b in Piece(queue, limit, j) ensures Older(orders, a, b) {
      var k := PlaceInPiece(queue, limit, i, a);
      var l := PlaceInPiece(queue, limit, j, b);
    }
  }

  lemma PlaceInPiece(s: seq<Uuid>, limit: nat, i: nat, x: Uuid) returns (k: nat)
    requires x in Piece(s, limit, i)
    ensures Offset(i, limit) <= k < Offset(i, limit) + limit && k < |s| && s[k] == x
  {
    var piece := Piece(s, limit, i);
    var j :| 0 <= j < |piece| && piece[j] == x;
    k := Offset(i, limit) + j;
  }

  lemma DropsAddUp(s: seq<Uuid>, i: nat, limit: nat)
    ensures Drop(Drop(s, Offset(i, limit)), limit) == Drop(s, Offset(i + 1, limit))
  {
  }

  /** The ceil(n / limit)-th piece is the first with nothing from there on. */
  lemma NothingLeftInTime(s: seq<Uuid>, limit: nat, i: nat)
    requires limit >= 1
    ensures Drop(s, Offset(i, limit)) == [] <==> i >= BatchesNeeded(|s|, limit)
  {
    OffsetIsProduct(i, limit);
    PieceCount(|s|, limit, i);
  }

  // ---- The worker's successive runs ----

  /** The draws from `from` up to `n` are new and all different. */
  ghost predicate FreshDraws(events: seq<OrderEvent>, newUuid: nat -> Uuid, from: nat, n: nat) {
    && (forall i :: from <= i < n ==> !HasEvent(events, newUuid(i)))
    && (forall i, j :: from <= i < j < n ==> newUuid(i) != newUuid(j))
  }

  lemma FreshDrawsFit(events: seq<OrderEvent>, newUuid: nat -> Uuid, from: nat, n: nat, k: nat)
    requires FreshDraws(events, newUuid, from, n) && from + k <= n
    ensures EventIdsFit(events, Drawn(DrawsAfter(newUuid, from), k))
  {
    var ids := Drawn(DrawsAfter(newUuid, from), k);
    assert forall i :: 0 <= i < k ==> ids[i] == newUuid(from + i);
  }

  lemma FreshDrawsLeft(tables: Tables, e: Entry, newUuid: nat -> Uuid, from: nat, n: nat)
    requires Allowed(tables, e) && FreshDraws(tables.events, newUuid, from, n) && from + |e.moved| <= n
    requires e.eventIds == Drawn(DrawsAfter(newUuid, from), |e.moved|)
    ensures FreshDraws(Apply(tables, e).events, newUuid, from + |e.moved|, n)
  {
    var events := tables.events + NewEvents(e);
    forall i | from + |e.moved| <= i < n ensures !HasEvent(events, newUuid(i)) {
      forall k | 0 <= k < |events| ensures events[k].id != newUuid(i) {
        if k < |tables.events| {
          assert events[k] == tables.events[k] && !HasEvent(tables.events, newUuid(i));
        } else {
          var l := k - |tables.events|;
          assert events[k].id == e.eventIds[l] == newUuid(from + l);
        }
      }
    }
  }

  lemma FrontFits(tables: Tables, t: TxId, cmd: Command, now: Timestamp, newUuid: nat -> Uuid, from: nat, n: nat)
    requires IsBatch(cmd) && FreshDraws(tables.events, newUuid, from, n) && from + |Queue(tables.orders)| <= n
    ensures Fits(tables, t, cmd, now, MovedAlone(tables.orders, cmd), DrawsAfter(newUuid, from))
  {
    FrontHoldsGuard(tables.orders, cmd);
    var moved := MovedAlone(tables.orders, cmd);
    FreshDrawsFit(tables.events, newUuid, from, n, |moved|);
    FitsInParts(tables, t, cmd, now, moved, DrawsAfter(newUuid, from));
  }

  /** A committed batch of `limit` that moved the front of the queue. */
  ghost predicate IsFrontBatch(before: Tables, e: Entry, after: Tables, limit: nat) {
    && IsBatch(e.cmd) && e.cmd.limit == limit && multiset(e.moved) == multiset(Take(Queue(before.orders), limit))
    && Allowed(before, e) && after == Apply(before, e)
  }

  lemma AfterFrontBatch(before: Tables, e: Entry, after: Tables, limit: nat, newUuid: nat -> Uuid, drawn: nat, n: nat)
    requires IsFrontBatch(before, e, after, limit)
    requires FreshDraws(before.events, newUuid, drawn, n) && drawn + |Queue(before.orders)| == n
    requires e.eventIds == Drawn(DrawsAfter(newUuid, drawn), |e.moved|)
    ensures Queue(after.orders) == Drop(Queue(before.orders), limit)
    ensures drawn + |e.moved| + |Queue(after.orders)| == n && FreshDraws(after.events, newUuid, drawn + |e.moved|, n)
  {
    BatchLeavesRestOfQueue(before, e);
    SameIds(e.moved, Take(Queue(before.orders), limit));
    TakeAndDrop(Queue(before.orders), limit);
    FreshDrawsLeft(before, e, newUuid, drawn, n);
  }

  /** One undisturbed run of the worker takes the front off the queue. */
  method RunOnce(db: Database, t: TxId, now: Timestamp, limit: Int32, source: Attribution, newUuid: nat -> Uuid,
                 drawn: nat, ghost queue: seq<Uuid>, ghost n: nat)
    returns (batch: seq<Order>, drawnThen: nat, ghost left: seq<Uuid>, ghost e: Entry)
    requires db.Valid() && db.script == [] && db.state.open.Keys == {} && limit >= 1 && t !in db.state.used
    requires queue == Queue(db.state.tables.orders) && EnoughDraws(db.state.tables.events, newUuid, drawn, queue, n)
    modifies db
    ensures db.Valid() && db.script == [] && db.state.open.Keys == {} && db.state.used <= old(db.state.used) + {t}
    ensures db.state.log == old(db.state.log) + [e]
    ensures e.cmd == ProcessBatch(limit, source) && IsPiece(e, batch, Take(queue, limit))
    ensures left == Drop(queue, limit) == Queue(db.state.tables.orders)
    ensures EnoughDraws(db.state.tables.events, newUuid, drawnThen, left, n)
  {
    var cmd := ProcessBatch(limit, source);
    FrontFits(db.state.tables, t, cmd, now, newUuid, drawn, n);
    FrontHoldsGuard(db.state.tables.orders, cmd);
    var r;
    ghost var moved;
    r, moved := ProcessPendingOrdersBatch(db, t, now, limit, source, DrawsAfter(newUuid, drawn));
    batch := r.value;
    IdsInOrder(batch, moved);
    e := Entry(t, cmd, now, moved, Drawn(DrawsAfter(newUuid, drawn), |moved|));
    AfterFrontBatch(old(db.state.tables), e, db.state.tables, limit, newUuid, drawn, n);
    left := Drop(queue, limit);
    drawnThen := drawn + |batch|;
  }

  /** The commits are batches that took the pieces of the queue in turn, as the worker returned them, in
      whatever order within a batch. */
  ghost predicate ArePieces(entries: seq<Entry>, batches: seq<seq<Order>>, queue: seq<Uuid>, limit: nat) {
    && |batches| == |entries|
    && forall i :: 0 <= i < |entries| ==> IsPiece(entries[i], batches[i], Piece(queue, limit, i))
  }

  ghost predicate IsPiece(e: Entry, batch: seq<Order>, piece: seq<Uuid>) {
    IsBatch(e.cmd) && multiset(e.moved) == multiset(piece) && multiset(IdsOf(batch)) == multiset(piece)
  }

  lemma OnePieceMore(entries: seq<Entry>, batches: seq<seq<Order>>, queue: seq<Uuid>, limit: nat, e: Entry, batch: seq<Order>)
    requires ArePieces(entries, batches, queue, limit)
    requires IsPiece(e, batch, Piece(queue, limit, |entries|))
    ensures ArePieces(entries + [e], batches + [batch], queue, limit)
  {
    forall i | 0 <= i < |entries + [e]|
      ensures IsPiece((entries + [e])[i], (batches + [batch])[i], Piece(queue, limit, i))
    {
      if i < |entries| {
        assert (entries + [e])[i] == entries[i] && (batches + [batch])[i] == batches[i];
        assert IsPiece(entries[i], batches[i], Piece(queue, limit, i));
      } else {
        assert (entries + [e])[i] == e && (batches + [batch])[i] == batch;
      }
    }
  }

  /** The runs so far are committed after `start` as these entries and returned these batches, pieces of the
      queue at the start; `rest` is what is left of it. */
  ghost predicate Progress(start: seq<Entry>, log: seq<Entry>, queue: seq<Uuid>, rest: seq<Uuid>, entries: seq<Entry>,
                           batches: seq<seq<Order>>, limit: nat)
  {
    && log == start + entries
    && ArePieces(entries, batches, queue, limit) && rest == Drop(queue, Offset(|entries|, limit))
  }

  lemma ProgressGoesOn(start: seq<Entry>, log: seq<Entry>, queue: seq<Uuid>, rest: seq<Uuid>, entries: seq<Entry>,
                       batches: seq<seq<Order>>, limit: nat, after: seq<Entry>, e: Entry, batch: seq<Order>)
    requires Progress(start, log, queue, rest, entries, batches, limit) && after == log + [e]
    requires IsPiece(e, batch, Take(rest, limit))
    ensures Progress(start, after, queue, Drop(rest, limit), entries + [e], batches + [batch], limit)
  {
    assert start + (entries + [e]) == start + entries + [e];
    DropsAddUp(queue, |entries|, limit);
    OnePieceMore(entries, batches, queue, limit, e, batch);
  }

  /** The generator has drawn `drawn` ids, and enough of the others are unused for what is left of the queue. */
  ghost predicate EnoughDraws(events: seq<OrderEvent>, newUuid: nat -> Uuid, drawn: nat, rest: seq<Uuid>, n: nat) {
    drawn + |rest| == n && FreshDraws(events, newUuid, drawn, n)
  }

  /** The names from the `i`-th on have not been used for transactions. */
  ghost predicate AreFree(names: seq<TxId>, i: nat, used: set<TxId>) {
    forall j :: i <= j < |names| ==> names[j] !in used
  }

  lemma NamesStayFree(names: seq<TxId>, i: nat, used: set<TxId>, after: set<TxId>)
    requires NoRepeats(names) && i < |names| && AreFree(names, i, used) && after <= used + {names[i]}
    ensures AreFree(names, i + 1, after)
  {
  }

  lemma PendingIsQueued(orders: map<Uuid, Order>)
    ensures |Queue(orders)| == |PendingIds(orders)| && (PendingIds(orders) == {} <==> Queue(orders) == [])
  {
  }

  /** How things stand after the first runs. */
  ghost predicate Underway(start: State, s: State, names: seq<TxId>, newUuid: nat -> Uuid, drawn: nat, rest: seq<Uuid>,
                           entries: seq<Entry>, batches: seq<seq<Order>>, limit: nat)
  {
    var queue := Queue(start.tables.orders);
    && s.open.Keys == {} && AreFree(names, |entries|, s.used)
    && rest == Queue(s.tables.orders) && Progress(start.log, s.log, queue, rest, entries, batches, limit)
    && EnoughDraws(s.tables.events, newUuid, drawn, rest, |queue|)
  }

  lemma GetsUnderway(start: State, names: seq<TxId>, newUuid: nat -> Uuid, limit: nat)
    requires start.open.Keys == {} && AreFree(names, 0, start.used)
    requires FreshDraws(start.tables.events, newUuid, 0, |PendingIds(start.tables.orders)|)
    ensures Underway(start, start, names, newUuid, 0, Queue(start.tables.orders), [], [], limit)
  {
    PendingIsQueued(start.tables.orders);
    assert start.log + [] == start.log && Drop(Queue(start.tables.orders), 0) == Queue(start.tables.orders);
  }

  lemma StaysUnderway(start: State, s: State, names: seq<TxId>, newUuid: nat -> Uuid, drawn: nat, rest: seq<Uuid>,
                      entries: seq<Entry>, batches: seq<seq<Order>>, limit: nat,
                      after: State, drawnThen: nat, left: seq<Uuid>, e: Entry, batch: seq<Order>)
    requires Underway(start, s, names, newUuid, drawn, rest, entries, batches, limit)
    requires |entries| < |names| && NoRepeats(names)
    requires after.open.Keys == {} && after.used <= s.used + {names[|entries|]} && after.log == s.log + [e]
    requires IsPiece(e, batch, Take(rest, limit)) && left == Drop(rest, limit) == Queue(after.tables.orders)
    requires EnoughDraws(after.tables.events, newUuid, drawnThen, left, |Queue(start.tables.orders)|)
    ensures Underway(start, after, names, newUuid, drawnThen, left, entries + [e], batches + [batch], limit)
  {
    NamesStayFree(names, |entries|, s.used, after.used);
    ProgressGoesOn(start.log, s.log, Queue(start.tables.orders), rest, entries, batches, limit, after.log, e, batch);
  }

  /** The successive runs of a worker that nobody disturbs. Each is one commit; together they cut the queue
      into consecutive pieces, and PENDING is empty exactly when there have been ceil(n / limit) of them. The ids
      drawn for the audit events of the orders PENDING at the start must be unused. */
  method RunBatches(db: Database, names: seq<TxId>, times: seq<Timestamp>, limit: Int32, source: Attribution,
                    newUuid: nat -> Uuid)
    returns (batches: seq<seq<Order>>, ghost entries: seq<Entry>)
    requires db.Valid() && db.script == [] && db.state.open.Keys == {} && limit >= 1
    requires |names| == |times| && NoRepeats(names) && AreFree(names, 0, db.state.used)
    requires FreshDraws(db.state.tables.events, newUuid, 0, |PendingIds(db.state.tables.orders)|)
    modifies db
    ensures db.Valid() && |entries| == |names|
    ensures Progress(old(db.state.log), db.state.log, Queue(old(db.state.tables.orders)), Queue(db.state.tables.orders),
                     entries, batches, limit)
    ensures PendingIds(db.state.tables.orders) == {} <==>
              |names| >= BatchesNeeded(|PendingIds(old(db.state.tables.orders))|, limit)
  {
    ghost var start, rest := db.state, Queue(db.state.tables.orders);
    GetsUnderway(start, names, newUuid, limit);
    batches, entries := [], [];
    var drawn := 0;
    for i := 0 to |names|
      invariant db.Valid() && db.script == [] && |entries| == i
      invariant Underway(start, db.state, names, newUuid, drawn, rest, entries, batches, limit)
    {
      ghost var before, drawnBefore, restBefore := db.state, drawn, rest;
      var batch;
      ghost var e;
      batch, drawn, rest, e :=
        RunOnce(db, names[i], times[i], limit, source, newUuid, drawn, rest, |Queue(start.tables.orders)|);
      StaysUnderway(start, before, names, newUuid, drawnBefore, restBefore, entries, batches, limit,
                    db.state, drawn, rest, e, batch);
      batches, entries := batches + [batch], entries + [e];
    }
    NothingLeftInTime(Queue(start.tables.orders), limit, |names|);
    PendingIsQueued(start.tables.orders);
    PendingIsQueued(db.state.tables.orders);
  }

  /** Of any two of these batches, the earlier moved the older orders, and the first ceil(n / limit) are the
      ones that are not empty. */
  lemma WorkerDrainsOldestFirst(orders: map<Uuid, Order>, entries: seq<Entry>, batches: seq<seq<Order>>, limit: nat,
                                i: nat, j: nat)
    requires limit >= 1 && ArePieces(entries, batches, Queue(orders), limit) && i < |entries| && j < |entries|
    ensures entries[i].moved != [] <==> i < BatchesNeeded(|PendingIds(orders)|, limit)
    ensures i < j ==> forall a, b :: a in entries[i].moved && b in entries[j].moved ==> Older(orders, a, b)
  {
    assert IsPiece(entries[i], batches[i], Piece(Queue(orders), limit, i));
    assert IsPiece(entries[j], batches[j], Piece(Queue(orders), limit, j));
    SameIds(entries[i].moved, Piece(Queue(orders), limit, i));
    SameIds(entries[j].moved, Piece(Queue(orders), limit, j));
    PieceIsEmptyAtTheEnd(Queue(orders), limit, i);
    if i < j {
      EarlierPieceIsOlder(orders, limit, i, j);
    }
  }
}
