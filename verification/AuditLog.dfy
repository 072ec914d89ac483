/** The audit log explains the status of every order (order_events, internal/orders/repository.go). */
module AuditLog {
  import opened Wrappers
  import opened Ids
  import opened StateMachine
  import opened Schema
  import opened Commands
  import opened AtomicSpec

  /** The events of one order, in commit order. */
  function EventsOf(events: seq<OrderEvent>, id: Uuid): seq<OrderEvent> {
    if events == [] then []
    else
      var last := events[|events| - 1];
      EventsOf(events[..|events| - 1], id) + (if last.orderId == id then [last] else [])
  }

  /** A chain NULL -> PENDING -> ... -> status along allowed transitions. */
  ghost predicate IsHistory(path: seq<OrderEvent>, status: OrderStatus) {
    && path != []
    && path[0].from == None && path[0].to == Some(Pending)
    && (forall i :: 0 < i < |path| ==>
          && path[i].from.Some? && path[i].to.Some?
          && path[i].from == path[i - 1].to
          && CanTransition(path[i].from.value, path[i].to.value))
    && path[|path| - 1].to == Some(status)
  }

  ghost predicate Explains(tables: Tables, id: Uuid) {
    if id in tables.orders then IsHistory(EventsOf(tables.events, id), tables.orders[id].status)
    else EventsOf(tables.events, id) == []
  }

  /** The service lets no status update through that is not an edge of the graph. */
  predicate FollowsGraph(cmd: Command) {
    cmd.UpdateStatus? ==> CanTransition(cmd.expected, cmd.next)
  }

  ghost predicate AllFollowGraph(log: seq<Entry>) {
    forall i :: 0 <= i < |log| ==> FollowsGraph(log[i].cmd)
  }

  lemma {:induction false} EventsOfConcat(a: seq<OrderEvent>, b: seq<OrderEvent>, id: Uuid)
    ensures EventsOf(a + b, id) == EventsOf(a, id) + EventsOf(b, id)
    decreases |b|
  {
    if b == [] {
      assert a + b == a;
    } else {
      var n := |b| - 1;
      EventsOfConcat(a, b[..n], id);
      assert (a + b)[..|a + b| - 1] == a + b[..n];
    }
  }

  /** When each order gets one event, the events of an order are that event. */
  lemma {:induction false} OneEventEach(events: seq<OrderEvent>, moved: seq<Uuid>, id: Uuid)
    requires |events| == |moved| && NoRepeats(moved)
    requires forall i :: 0 <= i < |events| ==> events[i].orderId == moved[i]
    ensures id !in moved ==> EventsOf(events, id) == []
    ensures forall k :: 0 <= k < |moved| && moved[k] == id ==> EventsOf(events, id) == [events[k]]
  {
    if events != [] {
      var n := |events| - 1;
      OneEventEach(events[..n], moved[..n], id);
      if moved[n] == id {
        assert id !in moved[..n];
        assert EventsOf(events, id) == [events[n]];
      } else {
        assert EventsOf(events, id) == EventsOf(events[..n], id);
        forall k | 0 <= k < |moved| && moved[k] == id ensures EventsOf(events, id) == [events[k]] {
          assert moved[..n][k] == id;
        }
      }
    }
  }

  function StatusBefore(tables: Tables, id: Uuid): Option<OrderStatus> {
    if id in tables.orders then Some(tables.orders[id].status) else None
  }

  /** A commit writes each order it moves and no other. */
  lemma CommitTouchesOnlyMoved(orders: map<Uuid, Order>, e: Entry, id: Uuid)
    requires GuardHolds(orders, e.cmd, e.moved)
    ensures id in OrdersAfter(orders, e) <==> id in orders || id in e.moved
    ensures id in orders && id !in e.moved ==> OrdersAfter(orders, e)[id] == orders[id]
  {
  }

  /** A commit writes one event for each order it moves, in that order's name, recording the order's
      status before and after. */
  lemma CommitWritesOneEventPerMovedOrder(tables: Tables, e: Entry, i: nat)
    requires Allowed(tables, e) && i < |e.moved|
    ensures NoRepeats(e.moved)
    ensures Apply(tables, e).events == tables.events + NewEvents(e) && |NewEvents(e)| == |e.moved|
    ensures var event := NewEvents(e)[i];
            && event.orderId == e.moved[i]
            && e.moved[i] in Apply(tables, e).orders
            && event.from == StatusBefore(tables, e.moved[i])
            && event.to == Some(Apply(tables, e).orders[e.moved[i]].status)
            && (e.cmd.ProcessBatch? ==> event.actorType == System && event.to == Some(Processing))
            && (e.cmd.CreateOrder? || e.cmd.CancelOrder? ==> event.actorType == Customer)
  {
    assert NewEvents(e)[i] == NewEvent(e, i);
  }

  /** Every commit moves its orders along the graph, creation being the entry into PENDING. */
  lemma CommitFollowsGraph(tables: Tables, e: Entry, id: Uuid)
    requires Allowed(tables, e) && FollowsGraph(e.cmd) && id in e.moved
    ensures var after := Apply(tables, e).orders;
            && id in after
            && (id !in tables.orders ==> after[id].status == Pending)
            && (id in tables.orders ==> CanTransition(tables.orders[id].status, after[id].status))
  {
  }

  lemma HistoryGrows(path: seq<OrderEvent>, status: OrderStatus, event: OrderEvent, next: OrderStatus)
    requires IsHistory(path, status) && CanTransition(status, next)
    requires event.from == Some(status) && event.to == Some(next)
    ensures IsHistory(path + [event], next)
  {
  }

  lemma MovedHasNoRepeats(tables: Tables, e: Entry)
    requires Allowed(tables, e)
    ensures NoRepeats(e.moved)
  {
  }

  /** The events of an order grow by one when a commit moves it and not otherwise. */
  lemma CommitAddsEvents(tables: Tables, e: Entry, id: Uuid) returns (added: seq<OrderEvent>)
    requires Allowed(tables, e)
    ensures EventsOf(Apply(tables, e).events, id) == EventsOf(tables.events, id) + added
    ensures id !in e.moved ==> added == []
    ensures id in e.moved ==>
              && id in Apply(tables, e).orders
              && |added| == 1
              && added[0].from == StatusBefore(tables, id)
              && added[0].to == Some(Apply(tables, e).orders[id].status)
  {
    MovedHasNoRepeats(tables, e);
    EventsOfConcat(tables.events, NewEvents(e), id);
    OneEventEach(NewEvents(e), e.moved, id);
    added := EventsOf(NewEvents(e), id);
    if id in e.moved {
      var k :| 0 <= k < |e.moved| && e.moved[k] == id;
      CommitWritesOneEventPerMovedOrder(tables, e, k);
      assert added == [NewEvents(e)[k]];
    }
  }

  lemma OneMoveKeepsExplanation(tables: Tables, after: Tables, id: Uuid, event: OrderEvent)
    requires Explains(tables, id) && EventsOf(after.events, id) == EventsOf(tables.events, id) + [event]
    requires id in after.orders && event.from == StatusBefore(tables, id) && event.to == Some(after.orders[id].status)
    requires id !in tables.orders ==> after.orders[id].status == Pending
    requires id in tables.orders ==> CanTransition(tables.orders[id].status, after.orders[id].status)
    ensures Explains(after, id)
  {
    if id in tables.orders {
      HistoryGrows(EventsOf(tables.events, id), tables.orders[id].status, event, after.orders[id].status);
    }
  }

  lemma CommitKeepsExplanation(tables: Tables, e: Entry, id: Uuid)
    requires Allowed(tables, e) && FollowsGraph(e.cmd) && Explains(tables, id)
    ensures Explains(Apply(tables, e), id)
  {
    var added := CommitAddsEvents(tables, e, id);
    if id in e.moved {
      CommitFollowsGraph(tables, e, id);
      assert added == [added[0]];
      OneMoveKeepsExplanation(tables, Apply(tables, e), id, added[0]);
    } else {
      CommitTouchesOnlyMoved(tables.orders, e, id);
    }
  }

  /** The audit log explains the state: in every committed state, the events of an order, in commit
      order, are a path from nothing through PENDING to its current status, every edge allowed; and an
      order that does not exist has no events. */
  lemma {:induction false} AuditLogExplainsState(log: seq<Entry>, id: Uuid)
    requires Legal(log) && AllFollowGraph(log)
    ensures Explains(Replay(log), id)
  {
    if log != [] {
      var n := |log| - 1;
      AuditLogExplainsState(log[..n], id);
      CommitKeepsExplanation(Replay(log[..n]), log[n], id);
    }
  }

  /** An order exists exactly if it has events, whatever commands were committed. */
  lemma {:induction false} OrdersHaveEvents(log: seq<Entry>, id: Uuid)
    requires Legal(log)
    ensures EventsOf(Replay(log).events, id) == [] <==> id !in Replay(log).orders
  {
    if log != [] {
      var n := |log| - 1;
      var before := Replay(log[..n]);
      OrdersHaveEvents(log[..n], id);
      var added := CommitAddsEvents(before, log[n], id);
      CommitTouchesOnlyMoved(before.orders, log[n], id);
    }
  }

  // ---- The unordered set of events is enough ----

  /** The place of an event in its history is the depth of the status it enters. */
  lemma {:induction false} DepthIsPosition(path: seq<OrderEvent>, status: OrderStatus, i: nat)
    requires IsHistory(path, status) && i < |path|
    ensures path[i].to.Some? && Depth(path[i].to.value) == i && IsValidStatus(path[i].to.value)
  {
    if i > 0 {
      DepthIsPosition(path, status, i - 1);
      TransitionsDeepen(path[i].from.value, path[i].to.value);
    }
  }

  /** No order enters a status twice, has more than four events, or leaves a final status. */
  lemma HistoriesAreShort(path: seq<OrderEvent>, status: OrderStatus)
    requires IsHistory(path, status)
    ensures |path| <= 4 && |path| == Depth(status) + 1
    ensures forall i, j :: 0 <= i < j < |path| ==> path[i].to != path[j].to
    ensures forall i :: 0 <= i < |path| ==> path[i].from != Some(Delivered) && path[i].from != Some(Cancelled)
  {
    forall i | 0 <= i < |path| ensures path[i].to.Some? && Depth(path[i].to.value) == i {
      DepthIsPosition(path, status, i);
    }
    assert Depth(path[|path| - 1].to.value) <= 3;
  }

  /** Events of two histories with the same members agree position by position. */
  lemma SameMembersSamePlace(p: seq<OrderEvent>, q: seq<OrderEvent>, s: OrderStatus, r: OrderStatus, i: nat)
    requires IsHistory(p, s) && IsHistory(q, r) && i < |p| && p[i] in q
    ensures i < |q| && q[i] == p[i]
  {
    var j :| 0 <= j < |q| && q[j] == p[i];
    DepthIsPosition(p, s, i);
    DepthIsPosition(q, r, j);
  }

  /** The events of an order, read in any order, determine its whole history and its status. */
  lemma EventsDetermineHistory(p: seq<OrderEvent>, q: seq<OrderEvent>, s: OrderStatus, r: OrderStatus)
    requires IsHistory(p, s) && IsHistory(q, r)
    requires forall e :: e in p <==> e in q
    ensures p == q && s == r
  {
    forall i | 0 <= i < |p| ensures i < |q| && q[i] == p[i] {
      SameMembersSamePlace(p, q, s, r, i);
    }
    forall i | 0 <= i < |q| ensures i < |p| && q[i] == p[i] {
      SameMembersSamePlace(q, p, r, s, i);
    }
  }

  /** For a listing of an order's events in any order, the current status is the one that some event
      enters and none leaves. */
  lemma StatusIsTheOneNotLeft(rows: seq<OrderEvent>, path: seq<OrderEvent>, status: OrderStatus, candidate: OrderStatus)
    requires IsHistory(path, status) && multiset(rows) == multiset(path)
    ensures candidate == status <==>
            && (exists i :: 0 <= i < |rows| && rows[i].to == Some(candidate))
            && (forall i :: 0 <= i < |rows| ==> rows[i].from != Some(candidate))
  {
    forall e ensures e in rows <==> e in path {
      assert e in rows <==> e in multiset(rows);
      assert e in path <==> e in multiset(path);
    }
    var last := |path| - 1;
    assert path[last] in rows;
    HistoriesAreShort(path, status);
    forall i | 0 <= i < |rows| ensures rows[i].from != Some(status) {
      assert rows[i] in path;
      var j :| 0 <= j < |path| && path[j] == rows[i];
      assert j > 0 ==> path[j].from == path[j - 1].to;
    }
    if i :| 0 <= i < |rows| && rows[i].to == Some(candidate) && candidate != status {
      assert rows[i] in path;
      var j :| 0 <= j < |path| && path[j] == rows[i];
      assert j < last;
      assert path[j + 1].from == Some(candidate);
      assert path[j + 1] in rows;
    }
  }

  // ---- One winner out of PENDING ----

  /** The command took the order out of PENDING. */
  predicate LeavesPending(e: Entry, id: Uuid) {
    && id in e.moved
    && !e.cmd.CreateOrder?
    && (e.cmd.UpdateStatus? ==> e.cmd.expected == Pending)
  }

  ghost predicate PastPending(tables: Tables, id: Uuid) {
    id in tables.orders && Depth(tables.orders[id].status) >= 1
  }

  lemma CommitDeepens(tables: Tables, e: Entry, id: Uuid)
    requires Allowed(tables, e) && FollowsGraph(e.cmd)
    ensures PastPending(tables, id) || LeavesPending(e, id) ==> PastPending(Apply(tables, e), id)
  {
    if id in e.moved {
      CommitFollowsGraph(tables, e, id);
      if id in tables.orders {
        TransitionsDeepen(tables.orders[id].status, Apply(tables, e).orders[id].status);
      }
    } else {
      CommitTouchesOnlyMoved(tables.orders, e, id);
    }
  }

  lemma {:induction false} NeverBackToPending(log: seq<Entry>, i: nat, id: Uuid)
    requires Legal(log) && AllFollowGraph(log) && i < |log| && LeavesPending(log[i], id)
    ensures PastPending(Replay(log), id)
    decreases |log|
  {
    var n := |log| - 1;
    if i < n {
      assert log[..n][i] == log[i];
      NeverBackToPending(log[..n], i, id);
    }
    CommitDeepens(Replay(log[..n]), log[n], id);
  }

  /** Once out of PENDING, an order stays out. */
  lemma {:induction false} PastPendingStays(before: seq<Entry>, log: seq<Entry>, id: Uuid)
    requires Legal(log) && AllFollowGraph(log) && before <= log && Legal(before) && PastPending(Replay(before), id)
    ensures PastPending(Replay(log), id)
    decreases |log|
  {
    if before != log {
      var shorter := log[..|log| - 1];
      PastPendingStays(before, shorter, id);
      CommitDeepens(Replay(shorter), log[|log| - 1], id);
    }
  }

  lemma PendingToLeave(tables: Tables, e: Entry, id: Uuid)
    requires Allowed(tables, e) && LeavesPending(e, id)
    ensures !PastPending(tables, id)
  {
  }

  /** One winner: each order leaves PENDING through at most one committed cancel, privileged update or
      worker batch. */
  lemma {:induction false} OneWinnerOutOfPending(log: seq<Entry>, i: nat, j: nat, id: Uuid)
    requires Legal(log) && AllFollowGraph(log) && i < |log| && j < |log|
    requires LeavesPending(log[i], id) && LeavesPending(log[j], id)
    ensures i == j
  {
    var first, second := if i < j then i else j, if i < j then j else i;
    LegalAt(log, second);
    PendingToLeave(Replay(log[..second]), log[second], id);
    if first < second {
      var earlier := log[..second];
      assert earlier[first] == log[first];
      NeverBackToPending(earlier, first, id);
    }
  }

  /** No order is in two worker batches. */
  lemma BatchesAreDisjoint(log: seq<Entry>, i: nat, j: nat)
    requires Legal(log) && AllFollowGraph(log) && i < j < |log|
    requires log[i].cmd.ProcessBatch? && log[j].cmd.ProcessBatch?
    ensures forall id :: !(id in log[i].moved && id in log[j].moved)
  {
    forall id | id in log[i].moved && id in log[j].moved ensures false {
      OneWinnerOutOfPending(log, i, j, id);
    }
  }
}
