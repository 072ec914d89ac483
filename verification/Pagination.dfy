/** Keyset pagination (internal/orders/handler.go:148-207, internal/db/orders.sql.go:314-433). */
module Pagination {
  import opened Wrappers
  import opened Ids
  import opened Clock
  import opened StateMachine
  import opened Schema
  import opened Sorting
  import Transactions
  import opened Cursor
  import Integrity
  import Text

  type Orders = map<Uuid, Order>

  datatype ListRequest = ListRequest(customerId: Uuid, status: Option<OrderStatus>, limit: nat)

  datatype Page = Page(orders: seq<Order>, nextCursor: Option<string>)

  datatype ListError = InvalidStatus | InvalidCursor

  /** Without a status, or with the empty one, the unfiltered query is used (repository.go:103-120). */
  predicate MatchesFilter(order: Order, status: Option<OrderStatus>) {
    status == None || status == Some(Other("")) || status == Some(order.status)
  }

  /** The row comparison `(created_at, id) < ($3, $4)`. */
  predicate AfterCursor(createdAt: Timestamp, id: Uuid, cursor: Option<Cursor>) {
    cursor.None?
    || Before(createdAt, cursor.value.createdAt)
    || (createdAt == cursor.value.createdAt && id < cursor.value.id)
  }

  /** All orders the request is about. */
  function Matching(orders: Orders, request: ListRequest): (ids: set<Uuid>)
    ensures ids <= orders.Keys
  {
    set id | id in orders && orders[id].customerId == request.customerId && MatchesFilter(orders[id], request.status)
  }

  function Beyond(orders: Orders, request: ListRequest, cursor: Option<Cursor>): (ids: set<Uuid>)
    ensures ids <= orders.Keys
  {
    set id | id in Matching(orders, request) && AfterCursor(orders[id].createdAt, id, cursor)
  }

  function RowsOf(orders: Orders, ids: seq<Uuid>): (rows: seq<Order>)
    requires forall i :: 0 <= i < |ids| ==> ids[i] in orders
    ensures |rows| == |ids| && forall i :: 0 <= i < |ids| ==> rows[i] == orders[ids[i]]
  {
    seq(|ids|, i requires 0 <= i < |ids| => orders[ids[i]])
  }

  lemma ListedAreStored(orders: Orders, ids: set<Uuid>)
    requires ids <= orders.Keys
    ensures forall i :: 0 <= i < |NewestFirst(orders, ids)| ==> NewestFirst(orders, ids)[i] in orders
  {
  }

  /** The two list queries. */
  function Query(orders: Orders, request: ListRequest, cursor: Option<Cursor>): seq<Order> {
    ListedAreStored(orders, Beyond(orders, request, cursor));
    RowsOf(orders, Take(NewestFirst(orders, Beyond(orders, request, cursor)), request.limit))
  }

  /** The one big list that a walk should reproduce. */
  function FullList(orders: Orders, request: ListRequest): seq<Order> {
    ListedAreStored(orders, Matching(orders, request));
    RowsOf(orders, NewestFirst(orders, Matching(orders, request)))
  }

  /** A full page carries a cursor made from its last row. */
  function PageOf(rows: seq<Order>, limit: nat): Page
    requires limit >= 1
  {
    if |rows| == limit then Page(rows, Some(EncodeCursor(rows[limit - 1].createdAt, rows[limit - 1].id)))
    else Page(rows, None)
  }

  /** The answer to one request. */
  function ListPage(orders: Orders, request: ListRequest, rawCursor: string): Result<Page, ListError>
    requires request.limit >= 1
  {
    if request.status.Some? && !IsValidStatus(request.status.value) then Err(InvalidStatus)
    else
      match ParseCursor(rawCursor)
      case Err(_) => Err(InvalidCursor)
      case Ok(cursor) => Ok(PageOf(Query(orders, request, cursor), request.limit))
  }

  method BuildPage(details: seq<Order>, limit: nat) returns (page: Page)
    requires limit >= 1
    ensures page == PageOf(details, limit)
  {
    var responseOrders: seq<Order> := [];
    for i := 0 to |details|
      invariant responseOrders == details[..i]
    {
      responseOrders := responseOrders + [details[i]];
    }
    var nextCursor: Option<string> := None;
    if |details| == limit {
      var last := details[|details| - 1];
      nextCursor := Some(EncodeCursor(last.createdAt, last.id));
    }
    page := Page(responseOrders, nextCursor);
  }

  /** Refuses an unknown status and a cursor it cannot read. Otherwise it answers with the customer's matching
      orders that come next after the cursor, newest first, and with a cursor exactly if the page is full;
      that cursor reads back as the place of the last order on the page. */
  method ListOrders(orders: Orders, request: ListRequest, rawCursor: string) returns (r: Result<Page, ListError>)
    requires request.limit >= 1
    ensures r == Err(InvalidStatus) <==> request.status.Some? && !IsValidStatus(request.status.value)
    ensures r == Err(InvalidCursor) <==> ProperRequest(request) && ParseCursor(rawCursor).Err?
    ensures r.Ok? ==> ParseCursor(rawCursor).Ok? && Continues(orders, request, ParseCursor(rawCursor).value, r.value)
    ensures r == ListPage(orders, request, rawCursor)
  {
    if request.status.Some? && !IsValidStatus(request.status.value) {
      return Err(InvalidStatus);
    }
    var parsed := ParseCursor(rawCursor);
    if parsed.Err? {
      return Err(InvalidCursor);
    }
    var details := Query(orders, request, parsed.value);
    var page := BuildPage(details, request.limit);
    r := Ok(page);
    PageMeaning(orders, request, parsed.value, r.value);
  }

  /** What a page says. */
  ghost predicate Continues(orders: Orders, request: ListRequest, cursor: Option<Cursor>, page: Page) {
    && AreNextRows(orders, request, cursor, page.orders)
    && (page.nextCursor.Some? <==> |page.orders| == request.limit)
    && (page.nextCursor.Some? ==>
          |page.orders| > 0 && ParseCursor(page.nextCursor.value) == Ok(Some(CursorOf(page.orders[|page.orders| - 1]))))
  }

  lemma PageMeaning(orders: Orders, request: ListRequest, cursor: Option<Cursor>, page: Page)
    requires ProperRequest(request) && page == PageOf(Query(orders, request, cursor), request.limit)
    ensures Continues(orders, request, cursor, page)
  {
    QueryGivesNextRows(orders, request, cursor);
    CursorOfFullPage(page.orders, request.limit);
  }

  lemma CursorOfFullPage(rows: seq<Order>, limit: nat)
    requires limit >= 1
    ensures PageOf(rows, limit).orders == rows && (PageOf(rows, limit).nextCursor.Some? <==> |rows| == limit)
    ensures |rows| == limit ==> ParseCursor(PageOf(rows, limit).nextCursor.value) == Ok(Some(CursorOf(rows[|rows| - 1])))
  {
    if |rows| == limit {
      CursorRoundTrip(rows[limit - 1].createdAt, rows[limit - 1].id);
    }
  }

  /** The order is the customer's and has the status asked for, if one is. */
  predicate AskedFor(order: Order, request: ListRequest) {
    order.customerId == request.customerId && (request.status.Some? ==> order.status == request.status.value)
  }

  /** A stored order that is asked for and comes after the cursor: created earlier, or then with a smaller id. */
  predicate IsNext(orders: Orders, request: ListRequest, cursor: Option<Cursor>, id: Uuid) {
    && id in orders && AskedFor(orders[id], request)
    && (cursor.Some? ==>
          || Before(orders[id].createdAt, cursor.value.createdAt)
          || (orders[id].createdAt == cursor.value.createdAt && id < cursor.value.id))
  }

  /** The rows are such orders, at most a page of them, newest first; and if any such order is left over, the
      page is full and the order comes after all of it. */
  ghost predicate AreNextRows(orders: Orders, request: ListRequest, cursor: Option<Cursor>, rows: seq<Order>) {
    exists ids :: AreNextIds(orders, request, cursor, ids) && rows == RowsOf(orders, ids)
  }

  ghost predicate AreNextIds(orders: Orders, request: ListRequest, cursor: Option<Cursor>, ids: seq<Uuid>) {
    && |ids| <= request.limit
    && (forall i :: 0 <= i < |ids| ==> IsNext(orders, request, cursor, ids[i]))
    && (forall i, j :: 0 <= i < j < |ids| ==> IsNewer(orders, ids[i], ids[j]))
    && (forall i, x :: 0 <= i < |ids| && IsNext(orders, request, cursor, x) && x !in ids ==> IsNewer(orders, ids[i], x))
    && ((exists x :: IsNext(orders, request, cursor, x) && x !in ids) ==> |ids| == request.limit)
  }

  /** The rows are all the stored orders asked for, newest first. */
  ghost predicate AreAllRows(orders: Orders, request: ListRequest, rows: seq<Order>) {
    exists ids :: AreAllIds(orders, request, ids) && rows == RowsOf(orders, ids)
  }

  ghost predicate AreAllIds(orders: Orders, request: ListRequest, ids: seq<Uuid>) {
    && (forall i :: 0 <= i < |ids| ==> ids[i] in orders && AskedFor(orders[ids[i]], request))
    && (forall id :: id in orders && AskedFor(orders[id], request) ==> id in ids)
    && (forall i, j :: 0 <= i < j < |ids| ==> IsNewer(orders, ids[i], ids[j]))
  }

  lemma MatchingIsAskedFor(orders: Orders, request: ListRequest)
    requires ProperRequest(request)
    ensures forall id :: id in Matching(orders, request) <==> id in orders && AskedFor(orders[id], request)
  {
  }

  lemma BeyondIsNext(orders: Orders, request: ListRequest, cursor: Option<Cursor>)
    requires ProperRequest(request)
    ensures forall id :: id in Beyond(orders, request, cursor) <==> IsNext(orders, request, cursor, id)
  {
    MatchingIsAskedFor(orders, request);
  }

  /** The first `limit` of a set of orders listed newest first. */
  ghost predicate AreFront(orders: Orders, beyond: set<Uuid>, limit: nat, ids: seq<Uuid>)
    requires beyond <= orders.Keys
  {
    && |ids| <= limit
    && (forall i :: 0 <= i < |ids| ==> ids[i] in beyond)
    && (forall i, j :: 0 <= i < j < |ids| ==> IsNewer(orders, ids[i], ids[j]))
    && (forall i, x :: 0 <= i < |ids| && x in beyond && x !in ids ==> IsNewer(orders, ids[i], x))
    && ((exists x :: x in beyond && x !in ids) ==> |ids| == limit)
  }

  lemma FrontIsNext(orders: Orders, request: ListRequest, cursor: Option<Cursor>, beyond: set<Uuid>, ids: seq<Uuid>)
    requires beyond <= orders.Keys && AreFront(orders, beyond, request.limit, ids)
    requires forall id :: id in beyond <==> IsNext(orders, request, cursor, id)
    ensures AreNextIds(orders, request, cursor, ids)
  {
    if x :| IsNext(orders, request, cursor, x) && x !in ids {
      assert x in beyond;
    }
  }

  /** `a` stands before `b` when ordered by (created_at, id), descending. */
  predicate IsNewer(orders: Orders, a: Uuid, b: Uuid)
    requires a in orders && b in orders
  {
    || Before(orders[b].createdAt, orders[a].createdAt)
    || (orders[b].createdAt == orders[a].createdAt && b < a)
  }

  lemma SmallerKeyIsNewer(orders: Orders, a: Uuid, b: Uuid)
    requires a in orders && b in orders && NewestFirstKeys(orders)[a] < NewestFirstKeys(orders)[b]
    ensures IsNewer(orders, a, b)
  {
    SortKeyIsRowOrder(orders, b, a);
    SortKeyIsRowOrder(orders, a, b);
  }

  lemma FrontIsNextIds(orders: Orders, beyond: set<Uuid>, all: seq<Uuid>, limit: nat)
    requires beyond <= orders.Keys && SameElements(all, beyond) && StrictlyAscending(NewestFirstKeys(orders), all)
    ensures AreFront(orders, beyond, limit, Take(all, limit))
  {
    var keys, ids := NewestFirstKeys(orders), Take(all, limit);
    Transactions.TakenAreElements(keys, beyond, all, limit);
    forall i, j | 0 <= i < j < |ids| ensures IsNewer(orders, ids[i], ids[j]) {
      assert ids[i] == all[i] && ids[j] == all[j];
      SmallerKeyIsNewer(orders, ids[i], ids[j]);
    }
    forall i, x | 0 <= i < |ids| && x in beyond && x !in ids ensures IsNewer(orders, ids[i], x) {
      assert ids[i] in beyond;
      SmallerKeyIsNewer(orders, ids[i], x);
    }
  }

  lemma QueryGivesNextRows(orders: Orders, request: ListRequest, cursor: Option<Cursor>)
    requires ProperRequest(request)
    ensures AreNextRows(orders, request, cursor, Query(orders, request, cursor))
  {
    var beyond := Beyond(orders, request, cursor);
    var all := NewestFirst(orders, beyond);
    ListedAreStored(orders, beyond);
    FrontIsNextIds(orders, beyond, all, request.limit);
    BeyondIsNext(orders, request, cursor);
    FrontIsNext(orders, request, cursor, beyond, Take(all, request.limit));
    assert Query(orders, request, cursor) == RowsOf(orders, Take(all, request.limit));
  }

  /** The one big list lists exactly the stored orders asked for, newest first. */
  lemma FullListIsAll(orders: Orders, request: ListRequest)
    requires ProperRequest(request)
    ensures AreAllRows(orders, request, FullList(orders, request))
  {
    var matching := Matching(orders, request);
    var ids := NewestFirst(orders, matching);
    MatchingIsAskedFor(orders, request);
    ListedAreStored(orders, matching);
    SortedIsNewestFirst(orders, matching, ids);
    assert AreAllIds(orders, request, ids) && FullList(orders, request) == RowsOf(orders, ids);
  }

  lemma SortedIsNewestFirst(orders: Orders, matching: set<Uuid>, ids: seq<Uuid>)
    requires matching <= orders.Keys && SameElements(ids, matching) && StrictlyAscending(NewestFirstKeys(orders), ids)
    ensures forall i :: 0 <= i < |ids| ==> ids[i] in matching
    ensures forall i, j :: 0 <= i < j < |ids| ==> IsNewer(orders, ids[i], ids[j])
  {
    assert forall i :: 0 <= i < |ids| ==> ids[i] in ids;
    forall i, j | 0 <= i < j < |ids| ensures IsNewer(orders, ids[i], ids[j]) {
      SmallerKeyIsNewer(orders, ids[i], ids[j]);
    }
  }

  /** What the endpoint answers to a raw cursor, at one moment. */
  type Endpoint = string -> Result<Page, ListError>

  /** A client follows the cursors, each request finding the endpoint as it is then. */
  function FollowCursors(moments: seq<Endpoint>, rawCursor: string): seq<Page>
    decreases |moments|
  {
    if moments == [] then []
    else
      match moments[0](rawCursor)
      case Err(_) => []
      case Ok(page) =>
        [page] + (if page.nextCursor.None? then [] else FollowCursors(moments[1..], page.nextCursor.value))
  }

  function EndpointsOf(snapshots: seq<Orders>, request: ListRequest): (moments: seq<Endpoint>)
    requires request.limit >= 1
    ensures |moments| == |snapshots|
    ensures forall i, raw :: 0 <= i < |moments| ==> moments[i](raw) == ListPage(snapshots[i], request, raw)
  {
    seq(|snapshots|, i requires 0 <= i < |snapshots| => (raw: string) => ListPage(snapshots[i], request, raw))
  }

  /** A client walk: the `i`-th request finds the orders as in the `i`-th snapshot. */
  function Walk(snapshots: seq<Orders>, request: ListRequest, rawCursor: string): seq<Page>
    requires request.limit >= 1
  {
    FollowCursors(EndpointsOf(snapshots, request), rawCursor)
  }

  function AllOrders(pages: seq<Page>): seq<Order> {
    if pages == [] then [] else pages[0].orders + AllOrders(pages[1..])
  }

  predicate ProperRequest(request: ListRequest) {
    request.limit >= 1 && (request.status.Some? ==> IsValidStatus(request.status.value))
  }

  ghost predicate CarryTheirId(orders: Orders) {
    forall id :: id in orders ==> orders[id].id == id
  }

  // ---- The walk on keys ----

  /** What the orders answer to a cursor, at one moment. */
  type Answers = Option<Cursor> -> seq<Order>

  function CursorOf(row: Order): Cursor {
    Cursor(row.createdAt, row.id)
  }

  /** The walk with cursors as values. */
  function KeyWalk(moments: seq<Answers>, limit: nat, cursor: Option<Cursor>): seq<seq<Order>>
    decreases |moments|
  {
    if moments == [] then []
    else
      var rows := moments[0](cursor);
      [rows] + (if 0 < limit == |rows| then KeyWalk(moments[1..], limit, Some(CursorOf(rows[limit - 1]))) else [])
  }

  function Joined(pages: seq<seq<Order>>): seq<Order> {
    if pages == [] then [] else pages[0] + Joined(pages[1..])
  }

  function AnswersOf(snapshots: seq<Orders>, request: ListRequest): (moments: seq<Answers>)
    ensures |moments| == |snapshots|
  {
    seq(|snapshots|, i requires 0 <= i < |snapshots| => (c: Option<Cursor>) => Query(snapshots[i], request, c))
  }

  /** A page answers with `rows`. */
  predicate Answered(page: Page, rows: seq<Order>, limit: nat) {
    page.orders == rows && (page.nextCursor.Some? <==> |rows| == limit)
  }

  lemma OnePage(orders: Orders, request: ListRequest, rawCursor: string, cursor: Option<Cursor>)
    requires ProperRequest(request) && ParseCursor(rawCursor) == Ok(cursor)
    ensures ListPage(orders, request, rawCursor).Ok?
    ensures var page := ListPage(orders, request, rawCursor).value;
            var rows := Query(orders, request, cursor);
            && Answered(page, rows, request.limit)
            && (page.nextCursor.Some? ==>
                  ParseCursor(page.nextCursor.value) == Ok(Some(CursorOf(rows[request.limit - 1]))))
  {
    var rows := Query(orders, request, cursor);
    if |rows| == request.limit {
      CursorRoundTrip(rows[request.limit - 1].createdAt, rows[request.limit - 1].id);
    }
  }

  /** Pages and plain rows that say the same. */
  predicate Agree(pages: seq<Page>, rows: seq<seq<Order>>, limit: nat) {
    && |pages| == |rows|
    && (forall i :: 0 <= i < |pages| ==> Answered(pages[i], rows[i], limit))
    && AllOrders(pages) == Joined(rows)
  }

  lemma AgreeOnOneMore(page: Page, pages: seq<Page>, row: seq<Order>, rows: seq<seq<Order>>, limit: nat)
    requires Answered(page, row, limit) && Agree(pages, rows, limit)
    ensures Agree([page] + pages, [row] + rows, limit)
  {
    assert ([page] + pages)[1..] == pages && ([row] + rows)[1..] == rows;
  }

  /** Asked with the text of a cursor, the endpoint answers with the rows for that cursor. */
  ghost predicate Serves(endpoint: Endpoint, answers: Answers, limit: nat, rawCursor: string, cursor: Option<Cursor>) {
    && endpoint(rawCursor).Ok?
    && var page, rows := endpoint(rawCursor).value, answers(cursor);
       && Answered(page, rows, limit)
       && (page.nextCursor.Some? ==>
             0 < limit && ParseCursor(page.nextCursor.value) == Ok(Some(CursorOf(rows[limit - 1]))))
  }

  ghost predicate AllServe(endpoints: seq<Endpoint>, moments: seq<Answers>, limit: nat) {
    && |endpoints| == |moments|
    && forall i, raw, cursor :: 0 <= i < |moments| && ParseCursor(raw) == Ok(cursor) ==>
         Serves(endpoints[i], moments[i], limit, raw, cursor)
  }

  lemma {:induction false} FollowingIsKeyWalk(endpoints: seq<Endpoint>, moments: seq<Answers>, limit: nat,
                                               rawCursor: string, cursor: Option<Cursor>)
    requires AllServe(endpoints, moments, limit) && ParseCursor(rawCursor) == Ok(cursor) && limit > 0
    ensures Agree(FollowCursors(endpoints, rawCursor), KeyWalk(moments, limit, cursor), limit)
    decreases |moments|
  {
    if moments != [] {
      assert Serves(endpoints[0], moments[0], limit, rawCursor, cursor);
      var page, rows := endpoints[0](rawCursor).value, moments[0](cursor);
      if page.nextCursor.Some? {
        var next := Some(CursorOf(rows[limit - 1]));
        FollowingIsKeyWalk(endpoints[1..], moments[1..], limit, page.nextCursor.value, next);
        AgreeOnOneMore(page, FollowCursors(endpoints[1..], page.nextCursor.value),
                       rows, KeyWalk(moments[1..], limit, next), limit);
      } else {
        AgreeOnOneMore(page, [], rows, [], limit);
      }
    }
  }

  /** Cursors travel as text; that makes no difference to the walk. */
  lemma TextCursorsAreFaithful(snapshots: seq<Orders>, request: ListRequest)
    requires ProperRequest(request)
    ensures Agree(Walk(snapshots, request, ""), KeyWalk(AnswersOf(snapshots, request), request.limit, None), request.limit)
  {
    var endpoints, moments := EndpointsOf(snapshots, request), AnswersOf(snapshots, request);
    forall i, raw, cursor | 0 <= i < |moments| && ParseCursor(raw) == Ok(cursor)
      ensures Serves(endpoints[i], moments[i], request.limit, raw, cursor)
    {
      OnePage(snapshots[i], request, raw, cursor);
    }
    FollowingIsKeyWalk(endpoints, moments, request.limit, "", None);
  }

  // ---- A frozen store ----

  /** The cursor of a client that has been given the first `k` rows. */
  function CursorAt(full: seq<Order>, k: nat): Option<Cursor>
    requires k <= |full|
  {
    if k == 0 then None else Some(CursorOf(full[k - 1]))
  }

  lemma BeyondFirst(orders: Orders, request: ListRequest, k: nat)
    requires CarryTheirId(orders) && 0 < k <= |FullList(orders, request)|
    ensures NewestFirst(orders, Beyond(orders, request, CursorAt(FullList(orders, request), k)))
            == NewestFirst(orders, Matching(orders, request))[k..]
  {
    var ids := Matching(orders, request);
    var last := NewestFirst(orders, ids)[k - 1];
    assert last in NewestFirst(orders, ids);
    var beyond := Beyond(orders, request, Some(CursorOf(orders[last])));
    forall x | x in ids ensures x in beyond <==> NewestFirstKeys(orders)[last] < NewestFirstKeys(orders)[x] {
      SortKeyIsRowOrder(orders, x, last);
      SortKeyIsRowOrder(orders, last, x);
    }
    SortKeysAreDistinct(orders);
    AscendingBeyond(NewestFirstKeys(orders), ids, k, beyond);
  }

  lemma RowsOfPart(orders: Orders, ids: seq<Uuid>, k: nat, limit: nat)
    requires (forall i :: 0 <= i < |ids| ==> ids[i] in orders) && k <= |ids|
    ensures forall i :: 0 <= i < |Take(ids[k..], limit)| ==> Take(ids[k..], limit)[i] in orders
    ensures RowsOf(orders, Take(ids[k..], limit)) == Take(RowsOf(orders, ids)[k..], limit)
  {
  }

  /** One query at position `k` answers with the next rows of the full list. */
  lemma QueryAtPosition(orders: Orders, request: ListRequest, k: nat)
    requires CarryTheirId(orders) && k <= |FullList(orders, request)|
    ensures Query(orders, request, CursorAt(FullList(orders, request), k))
            == Take(FullList(orders, request)[k..], request.limit)
  {
    var ids := NewestFirst(orders, Matching(orders, request));
    ListedAreStored(orders, Matching(orders, request));
    RowsOfPart(orders, ids, k, request.limit);
    if k == 0 {
      assert Beyond(orders, request, None) == Matching(orders, request);
      assert ids[0..] == ids;
    } else {
      BeyondFirst(orders, request, k);
    }
  }

  /** Requests it takes to see that a list of `n` rows has ended: the last answer is short. */
  function RequestsNeeded(n: nat, limit: nat): nat
    requires limit >= 1
  {
    if n < limit then 1 else 1 + RequestsNeeded(n - limit, limit)
  }

  lemma {:induction false} RequestsNeededIsQuotient(n: nat, limit: nat)
    requires limit >= 1
    ensures RequestsNeeded(n, limit) == n / limit + 1
  {
    if n < limit {
      Text.QuotientIsUnique(n, limit, 0, n);
    } else {
      RequestsNeededIsQuotient(n - limit, limit);
      Text.QuotientIsUnique(n - limit, limit, n / limit - 1, n % limit);
    }
  }

  /** The pages of a list cut into pieces of `limit`, from row `k` on. */
  ghost predicate AreCuts(pages: seq<seq<Order>>, full: seq<Order>, k: nat, limit: nat)
    requires k <= |full| && limit >= 1
  {
    && |pages| == RequestsNeeded(|full| - k, limit)
    && Joined(pages) == full[k..]
    && |pages[|pages| - 1]| < limit
    && (forall i :: 0 <= i < |pages| - 1 ==> |pages[i]| == limit)
  }

  /** The list from row `k` on, cut into pieces of `limit` and a shorter last one. */
  function Cuts(full: seq<Order>, k: nat, limit: nat): (pages: seq<seq<Order>>)
    requires k <= |full| && limit >= 1
    ensures |pages| >= 1
    decreases |full| - k
  {
    if |full| < k + limit then [full[k..]] else [full[k..k + limit]] + Cuts(full, k + limit, limit)
  }

  lemma {:induction false} CutsAreCuts(full: seq<Order>, k: nat, limit: nat)
    requires k <= |full| && limit >= 1
    ensures AreCuts(Cuts(full, k, limit), full, k, limit)
    decreases |full| - k
  {
    var pages := Cuts(full, k, limit);
    if |full| < k + limit {
      assert Joined(pages) == full[k..] + [];
    } else {
      var rest := Cuts(full, k + limit, limit);
      CutsAreCuts(full, k + limit, limit);
      assert pages[1..] == rest;
      assert full[k..] == full[k..k + limit] + full[k + limit..];
    }
  }

  ghost predicate ListsAs(answers: Answers, full: seq<Order>, limit: nat) {
    forall k :: 0 <= k <= |full| ==> answers(CursorAt(full, k)) == Take(full[k..], limit)
  }

  /** The same answers at every moment. */
  ghost predicate Steady(moments: seq<Answers>, full: seq<Order>, limit: nat)
    decreases |moments|
  {
    moments == [] || (ListsAs(moments[0], full, limit) && Steady(moments[1..], full, limit))
  }

  lemma {:induction false} SteadyIfEach(moments: seq<Answers>, full: seq<Order>, limit: nat)
    requires forall i :: 0 <= i < |moments| ==> ListsAs(moments[i], full, limit)
    ensures Steady(moments, full, limit)
    decreases |moments|
  {
    if moments != [] {
      SteadyIfEach(moments[1..], full, limit);
    }
  }

  lemma SteadyStep(moments: seq<Answers>, full: seq<Order>, limit: nat, k: nat)
    requires limit >= 1 && k + limit <= |full| && Steady(moments, full, limit)
    requires moments != []
    ensures Steady(moments[1..], full, limit)
    ensures KeyWalk(moments, limit, CursorAt(full, k))
            == [full[k..k + limit]] + KeyWalk(moments[1..], limit, CursorAt(full, k + limit))
  {
    assert ListsAs(moments[0], full, limit);
    var rows := moments[0](CursorAt(full, k));
    assert rows == Take(full[k..], limit) == full[k..k + limit];
    assert CursorAt(full, k + limit) == Some(CursorOf(rows[limit - 1]));
  }

  lemma SteadyEnd(moments: seq<Answers>, full: seq<Order>, limit: nat, k: nat)
    requires limit >= 1 && k <= |full| < k + limit && Steady(moments, full, limit) && moments != []
    ensures KeyWalk(moments, limit, CursorAt(full, k)) == [full[k..]]
  {
    assert ListsAs(moments[0], full, limit);
    assert moments[0](CursorAt(full, k)) == full[k..];
  }

  lemma OneCut(full: seq<Order>, k: nat, limit: nat, n: nat)
    requires limit >= 1 && k + limit <= |full| && n == |full| - k
    ensures Cuts(full, k, limit) == [full[k..k + limit]] + Cuts(full, k + limit, limit)
    ensures RequestsNeeded(n, limit) == 1 + RequestsNeeded(n - limit, limit)
  {
  }

  lemma {:induction false} SteadyWalkCuts(moments: seq<Answers>, full: seq<Order>, limit: nat, k: nat, n: nat)
    requires limit >= 1 && k + n == |full| && Steady(moments, full, limit)
    requires |moments| >= RequestsNeeded(n, limit)
    ensures KeyWalk(moments, limit, CursorAt(full, k)) == Cuts(full, k, limit)
    decreases n
  {
    if limit <= n {
      OneCut(full, k, limit, n);
      SteadyStep(moments, full, limit, k);
      SteadyWalkCuts(moments[1..], full, limit, k + limit, n - limit);
    } else {
      SteadyEnd(moments, full, limit, k);
    }
  }

  function Frozen(orders: Orders, m: nat): (snapshots: seq<Orders>)
    ensures |snapshots| == m && forall i :: 0 <= i < m ==> snapshots[i] == orders
  {
    seq(m, i => orders)
  }

  lemma FrozenIsSteady(orders: Orders, request: ListRequest, m: nat)
    requires CarryTheirId(orders)
    ensures Steady(AnswersOf(Frozen(orders, m), request), FullList(orders, request), request.limit)
  {
    var full := FullList(orders, request);
    var moments := AnswersOf(Frozen(orders, m), request);
    forall i, k | 0 <= i < |moments| && 0 <= k <= |full|
      ensures moments[i](CursorAt(full, k)) == Take(full[k..], request.limit)
    {
      QueryAtPosition(orders, request, k);
    }
    SteadyIfEach(moments, full, request.limit);
  }

  /** The pages of a complete walk over `full`: as many as it takes, each full but the last. */
  ghost predicate IsCompleteWalk(pages: seq<Page>, full: seq<Order>, limit: nat)
    requires limit >= 1
  {
    && |pages| == |full| / limit + 1
    && AllOrders(pages) == full
    && pages[|pages| - 1].nextCursor.None?
    && (forall i :: 0 <= i < |pages| - 1 ==> |pages[i].orders| == limit && pages[i].nextCursor.Some?)
  }

  lemma AgreementCarriesCuts(pages: seq<Page>, rows: seq<seq<Order>>, full: seq<Order>, limit: nat)
    requires limit >= 1 && Agree(pages, rows, limit) && AreCuts(rows, full, 0, limit)
    ensures IsCompleteWalk(pages, full, limit)
  {
    assert full[0..] == full;
    RequestsNeededIsQuotient(|full|, limit);
    assert Answered(pages[|pages| - 1], rows[|rows| - 1], limit);
  }

  /** On a frozen store a walk from no cursor concatenates to exactly the customer's matching orders,
      newest first, and ends after exactly n / limit + 1 requests, every page but the last being full. */
  lemma WalkEqualsFullList(orders: Orders, request: ListRequest, m: nat)
    requires CarryTheirId(orders) && ProperRequest(request)
    requires m > |FullList(orders, request)| / request.limit
    ensures IsCompleteWalk(Walk(Frozen(orders, m), request, ""), FullList(orders, request), request.limit)
    ensures AreAllRows(orders, request, AllOrders(Walk(Frozen(orders, m), request, "")))
  {
    var full := FullList(orders, request);
    var moments := AnswersOf(Frozen(orders, m), request);
    FrozenIsSteady(orders, request, m);
    RequestsNeededIsQuotient(|full|, request.limit);
    SteadyWalkCuts(moments, full, request.limit, 0, |full|);
    CutsAreCuts(full, 0, request.limit);
    TextCursorsAreFaithful(Frozen(orders, m), request);
    AgreementCarriesCuts(Walk(Frozen(orders, m), request, ""), KeyWalk(moments, request.limit, None), full, request.limit);
    FullListIsAll(orders, request);
  }

  // ---- Writers between the pages ----

  /** What later committed states keep of an order. */
  ghost predicate Later(before: Orders, after: Orders) {
    forall id :: id in before ==> id in after && Integrity.SameIdentity(before[id], after[id])
  }

  ghost predicate Unfolding(snapshots: seq<Orders>) {
    && (forall i :: 0 <= i < |snapshots| ==> CarryTheirId(snapshots[i]))
    && (forall i, j :: 0 <= i <= j < |snapshots| ==> Later(snapshots[i], snapshots[j]))
  }

  /** The place of a row in the newest-first order; it depends only on columns that never change. */
  function Place(cursor: Cursor): int {
    -Append(Rank(cursor.createdAt), UUID_LIMIT, cursor.id)
  }

  ghost predicate PastCursor(row: Order, cursor: Option<Cursor>) {
    cursor.Some? ==> Place(cursor.value) < Place(CursorOf(row))
  }

  lemma AfterCursorIsPast(row: Order, cursor: Option<Cursor>)
    ensures AfterCursor(row.createdAt, row.id, cursor) <==> PastCursor(row, cursor)
  {
    if cursor.Some? {
      AppendOrder(Rank(row.createdAt), Rank(cursor.value.createdAt), UUID_LIMIT, row.id, cursor.value.id);
      AppendOrder(Rank(cursor.value.createdAt), Rank(row.createdAt), UUID_LIMIT, cursor.value.id, row.id);
      if Rank(row.createdAt) == Rank(cursor.value.createdAt) {
        RankIsInjective(row.createdAt, cursor.value.createdAt);
      }
    }
  }

  /** Rows in strictly newest-first order, all past a given point. */
  ghost predicate Descends(rows: seq<Order>, cursor: Option<Cursor>) {
    && (forall i :: 0 <= i < |rows| ==> PastCursor(rows[i], cursor))
    && (forall i, j :: 0 <= i < j < |rows| ==> Place(CursorOf(rows[i])) < Place(CursorOf(rows[j])))
  }

  lemma BeyondIsPast(orders: Orders, request: ListRequest, cursor: Option<Cursor>, id: Uuid)
    requires CarryTheirId(orders) && id in Beyond(orders, request, cursor)
    ensures NewestFirstKeys(orders)[id] == Place(CursorOf(orders[id])) && PastCursor(orders[id], cursor)
  {
    AfterCursorIsPast(orders[id], cursor);
  }

  lemma QueryDescends(orders: Orders, request: ListRequest, cursor: Option<Cursor>)
    requires CarryTheirId(orders)
    ensures Descends(Query(orders, request, cursor), cursor)
  {
    var beyond := Beyond(orders, request, cursor);
    var ids := NewestFirst(orders, beyond);
    var rows := Query(orders, request, cursor);
    forall i | 0 <= i < |rows|
      ensures NewestFirstKeys(orders)[ids[i]] == Place(CursorOf(rows[i])) && PastCursor(rows[i], cursor)
    {
      assert ids[i] in ids && ids[i] in beyond && rows[i] == orders[ids[i]];
      BeyondIsPast(orders, request, cursor, ids[i]);
    }
  }

  ghost predicate AllDescend(moments: seq<Answers>) {
    forall i, c :: 0 <= i < |moments| ==> Descends(moments[i](c), c)
  }

  lemma DescendsOn(rows: seq<Order>, rest: seq<Order>, cursor: Option<Cursor>)
    requires rows != [] && Descends(rows, cursor) && Descends(rest, Some(CursorOf(rows[|rows| - 1])))
    ensures Descends(rows + rest, cursor)
  {
    var last, all := rows[|rows| - 1], rows + rest;
    forall i | 0 <= i < |rows| ensures Place(CursorOf(rows[i])) <= Place(CursorOf(last)) {
    }
    forall j | 0 <= j < |rest| ensures Place(CursorOf(last)) < Place(CursorOf(rest[j])) {
      assert PastCursor(rest[j], Some(CursorOf(last)));
    }
    forall i | 0 <= i < |all| ensures PastCursor(all[i], cursor) {
      assert all[i] == if i < |rows| then rows[i] else rest[i - |rows|];
      assert PastCursor(last, cursor);
    }
    forall i, j | 0 <= i < j < |all| ensures Place(CursorOf(all[i])) < Place(CursorOf(all[j])) {
      assert all[i] == if i < |rows| then rows[i] else rest[i - |rows|];
      assert all[j] == if j < |rows| then rows[j] else rest[j - |rows|];
    }
  }

  /** The rows of a walk are those of its first page and then those of the walk that goes on. */
  lemma KeyWalkUnfolds(moments: seq<Answers>, limit: nat, cursor: Option<Cursor>)
    requires moments != []
    ensures var rows := moments[0](cursor);
            Joined(KeyWalk(moments, limit, cursor)) ==
            rows + if 0 < limit == |rows| then Joined(KeyWalk(moments[1..], limit, Some(CursorOf(rows[limit - 1])))) else []
  {
    var rows, pages := moments[0](cursor), KeyWalk(moments, limit, cursor);
    if 0 < limit == |rows| {
      assert pages[1..] == KeyWalk(moments[1..], limit, Some(CursorOf(rows[limit - 1])));
    } else {
      assert pages[1..] == [];
    }
  }

  lemma AllDescendRest(moments: seq<Answers>)
    requires AllDescend(moments) && moments != []
    ensures AllDescend(moments[1..]) && forall c :: Descends(moments[0](c), c)
  {
  }

  lemma {:induction false} KeyWalkDescends(moments: seq<Answers>, limit: nat, cursor: Option<Cursor>)
    requires AllDescend(moments)
    ensures Descends(Joined(KeyWalk(moments, limit, cursor)), cursor)
    decreases |moments|
  {
    if moments != [] {
      var rows := moments[0](cursor);
      AllDescendRest(moments);
      KeyWalkUnfolds(moments, limit, cursor);
      if 0 < limit == |rows| {
        var next := Some(CursorOf(rows[limit - 1]));
        KeyWalkDescends(moments[1..], limit, next);
        DescendsOn(rows, Joined(KeyWalk(moments[1..], limit, next)), cursor);
      } else {
        assert rows + [] == rows;
      }
    }
  }

  /** Every row of an answer satisfies what all answers' rows satisfy. */
  lemma {:induction false} KeyWalkRows(moments: seq<Answers>, limit: nat, cursor: Option<Cursor>, P: Order -> bool)
    requires forall i, c, j :: 0 <= i < |moments| && 0 <= j < |moments[i](c)| ==> P(moments[i](c)[j])
    ensures forall j :: 0 <= j < |Joined(KeyWalk(moments, limit, cursor))| ==> P(Joined(KeyWalk(moments, limit, cursor))[j])
    decreases |moments|
  {
    if moments != [] {
      var rows := moments[0](cursor);
      var pages := KeyWalk(moments, limit, cursor);
      if 0 < limit == |rows| {
        var next := Some(CursorOf(rows[limit - 1]));
        KeyWalkRows(moments[1..], limit, next, P);
        assert pages[1..] == KeyWalk(moments[1..], limit, next);
      } else {
        assert pages[1..] == [];
      }
    }
  }

  /** The row shows, for its id, the creation time it has in the last snapshot. */
  predicate ShownAsIn(last: Orders, row: Order) {
    row.id in last && last[row.id].createdAt == row.createdAt
  }

  lemma QueryRowsAreStored(orders: Orders, request: ListRequest, cursor: Option<Cursor>, last: Orders, j: nat)
    requires CarryTheirId(orders) && Later(orders, last) && j < |Query(orders, request, cursor)|
    ensures ShownAsIn(last, Query(orders, request, cursor)[j])
  {
    var ids := NewestFirst(orders, Beyond(orders, request, cursor));
    assert ids[j] in ids;
    assert Query(orders, request, cursor)[j] == orders[ids[j]];
  }

  /** Whatever is committed between the requests, the answers descend strictly and no order is returned
      twice. */
  lemma NoOrderTwice(snapshots: seq<Orders>, request: ListRequest)
    requires ProperRequest(request) && Unfolding(snapshots)
    ensures var rows := AllOrders(Walk(snapshots, request, ""));
            forall i, j :: 0 <= i < j < |rows| ==>
              rows[i].id != rows[j].id && Place(CursorOf(rows[i])) < Place(CursorOf(rows[j]))
  {
    TextCursorsAreFaithful(snapshots, request);
    WalkDescends(snapshots, request);
    if snapshots != [] {
      RowsAreStoredAtTheEnd(snapshots, request);
      DescendingRowsDiffer(Joined(KeyWalk(AnswersOf(snapshots, request), request.limit, None)), snapshots[|snapshots| - 1]);
    }
  }

  lemma WalkDescends(snapshots: seq<Orders>, request: ListRequest)
    requires Unfolding(snapshots)
    ensures Descends(Joined(KeyWalk(AnswersOf(snapshots, request), request.limit, None)), None)
  {
    var moments := AnswersOf(snapshots, request);
    forall k, c | 0 <= k < |moments| ensures Descends(moments[k](c), c) {
      QueryDescends(snapshots[k], request, c);
    }
    KeyWalkDescends(moments, request.limit, None);
  }

  predicate AllShownAsIn(last: Orders, rows: seq<Order>) {
    forall r :: 0 <= r < |rows| ==> ShownAsIn(last, rows[r])
  }

  /** Every row of the walk is stored at its end, with the creation time it was shown with. */
  lemma RowsAreStoredAtTheEnd(snapshots: seq<Orders>, request: ListRequest)
    requires Unfolding(snapshots) && snapshots != []
    ensures var rows := Joined(KeyWalk(AnswersOf(snapshots, request), request.limit, None));
            AllShownAsIn(snapshots[|snapshots| - 1], rows)
  {
    var moments := AnswersOf(snapshots, request);
    var last := snapshots[|snapshots| - 1];
    forall k, c, r | 0 <= k < |moments| && 0 <= r < |moments[k](c)| ensures ShownAsIn(last, moments[k](c)[r]) {
      QueryRowsAreStored(snapshots[k], request, c, last, r);
    }
    KeyWalkRows(moments, request.limit, None, row => ShownAsIn(last, row));
  }

  lemma DescendingRowsDiffer(rows: seq<Order>, last: Orders)
    requires Descends(rows, None) && AllShownAsIn(last, rows)
    ensures forall i, j :: 0 <= i < j < |rows| ==>
              rows[i].id != rows[j].id && Place(CursorOf(rows[i])) < Place(CursorOf(rows[j]))
  {
    forall i, j | 0 <= i < j < |rows| ensures rows[i].id != rows[j].id {
      assert ShownAsIn(last, rows[i]) && ShownAsIn(last, rows[j]);
    }
  }

  /** Whatever is committed between the requests, a walk shows only orders of the customer, with the status
      asked for. */
  lemma WalkShowsWhatIsAskedFor(snapshots: seq<Orders>, request: ListRequest)
    requires ProperRequest(request)
    ensures var rows := AllOrders(Walk(snapshots, request, ""));
            forall r :: 0 <= r < |rows| ==> AskedFor(rows[r], request)
  {
    var moments := AnswersOf(snapshots, request);
    TextCursorsAreFaithful(snapshots, request);
    forall k, c, r | 0 <= k < |moments| && 0 <= r < |moments[k](c)| ensures AskedFor(moments[k](c)[r], request) {
      QueryRowsAreAskedFor(snapshots[k], request, c, r);
    }
    KeyWalkRows(moments, request.limit, None, row => AskedFor(row, request));
  }

  lemma QueryRowsAreAskedFor(orders: Orders, request: ListRequest, cursor: Option<Cursor>, r: nat)
    requires ProperRequest(request)
    ensures r < |Query(orders, request, cursor)| ==> AskedFor(Query(orders, request, cursor)[r], request)
  {
    QueryGivesNextRows(orders, request, cursor);
    if r < |Query(orders, request, cursor)| {
      var ids :| AreNextIds(orders, request, cursor, ids) && Query(orders, request, cursor) == RowsOf(orders, ids);
      assert IsNext(orders, request, cursor, ids[r]);
    }
  }

  /** The order is there and asked for at each of the first `n` requests. */
  ghost predicate MatchesThroughout(snapshots: seq<Orders>, n: nat, request: ListRequest, id: Uuid) {
    forall i :: 0 <= i < n && i < |snapshots| ==> id in snapshots[i] && AskedFor(snapshots[i][id], request)
  }

  ghost predicate Ended(pages: seq<Page>) {
    pages != [] && pages[|pages| - 1].nextCursor.None?
  }

  ghost predicate Shows(rows: seq<Order>, id: Uuid) {
    exists j :: 0 <= j < |rows| && rows[j].id == id
  }

  lemma ShowsInJoin(a: seq<Order>, b: seq<Order>, id: Uuid)
    ensures Shows(a + b, id) <==> Shows(a, id) || Shows(b, id)
  {
    if Shows(a, id) {
      var j :| 0 <= j < |a| && a[j].id == id;
      assert (a + b)[j].id == id;
    }
    if Shows(b, id) {
      var j :| 0 <= j < |b| && b[j].id == id;
      assert (a + b)[|a| + j].id == id;
    }
  }

  /** Either some row has the id, or the answer is full and ends before `place`. */
  ghost predicate ReachesOrStopsShort(rows: seq<Order>, limit: nat, id: Uuid, place: int) {
    || Shows(rows, id)
    || (|rows| == limit && limit > 0 && Place(CursorOf(rows[limit - 1])) < place)
  }

  lemma ListReachesOrStopsShort(orders: Orders, ids: seq<Uuid>, rows: seq<Order>, limit: nat, id: Uuid)
    requires CarryTheirId(orders) && limit >= 1
    requires StrictlyAscending(NewestFirstKeys(orders), ids) && id in ids
    requires |rows| == |Take(ids, limit)|
    requires forall i :: 0 <= i < |rows| ==> ids[i] in orders && rows[i] == orders[ids[i]]
    requires id in orders
    ensures ReachesOrStopsShort(rows, limit, id, Place(CursorOf(orders[id])))
  {
    var p :| 0 <= p < |ids| && ids[p] == id;
    if p < |rows| {
      assert rows[p].id == id;
    } else {
      assert NewestFirstKeys(orders)[ids[limit - 1]] < NewestFirstKeys(orders)[id];
    }
  }

  lemma QueryRows(orders: Orders, request: ListRequest, cursor: Option<Cursor>)
    ensures var ids := NewestFirst(orders, Beyond(orders, request, cursor));
            var rows := Query(orders, request, cursor);
            && |rows| == |Take(ids, request.limit)|
            && forall i :: 0 <= i < |rows| ==> ids[i] in orders && rows[i] == orders[ids[i]]
  {
    var ids := NewestFirst(orders, Beyond(orders, request, cursor));
    ListedAreStored(orders, Beyond(orders, request, cursor));
    assert Query(orders, request, cursor) == RowsOf(orders, Take(ids, request.limit));
  }

  lemma IsListedBeyond(orders: Orders, request: ListRequest, cursor: Option<Cursor>, id: Uuid)
    requires CarryTheirId(orders) && id in Matching(orders, request) && PastCursor(orders[id], cursor)
    ensures id in NewestFirst(orders, Beyond(orders, request, cursor))
  {
    AfterCursorIsPast(orders[id], cursor);
    assert id in Beyond(orders, request, cursor);
  }

  lemma QueryReachesOrStopsShort(orders: Orders, request: ListRequest, cursor: Option<Cursor>, id: Uuid)
    requires CarryTheirId(orders) && request.limit >= 1 && id in Matching(orders, request)
    requires PastCursor(orders[id], cursor)
    ensures ReachesOrStopsShort(Query(orders, request, cursor), request.limit, id, Place(CursorOf(orders[id])))
  {
    IsListedBeyond(orders, request, cursor, id);
    QueryRows(orders, request, cursor);
    ListReachesOrStopsShort(orders, NewestFirst(orders, Beyond(orders, request, cursor)),
                            Query(orders, request, cursor), request.limit, id);
  }

  ghost predicate AllReach(moments: seq<Answers>, n: nat, limit: nat, id: Uuid, place: int) {
    forall i, c: Option<Cursor> :: 0 <= i < n && i < |moments| && (c.Some? ==> Place(c.value) < place) ==>
      ReachesOrStopsShort(moments[i](c), limit, id, place)
  }

  ghost predicate EndsShort(pages: seq<seq<Order>>, limit: nat) {
    pages != [] && |pages[|pages| - 1]| != limit
  }

  lemma {:induction false} KeyWalkReaches(moments: seq<Answers>, limit: nat, cursor: Option<Cursor>, id: Uuid, place: int)
    requires AllReach(moments, |KeyWalk(moments, limit, cursor)|, limit, id, place) && (cursor.Some? ==> Place(cursor.value) < place)
    requires EndsShort(KeyWalk(moments, limit, cursor), limit)
    ensures Shows(Joined(KeyWalk(moments, limit, cursor)), id)
    decreases |moments|
  {
    var rows := moments[0](cursor);
    var pages := KeyWalk(moments, limit, cursor);
    assert ReachesOrStopsShort(rows, limit, id, place);
    ShowsInJoin(rows, Joined(pages[1..]), id);
    if !Shows(rows, id) {
      var next := Some(CursorOf(rows[limit - 1]));
      assert pages[1..] == KeyWalk(moments[1..], limit, next);
      KeyWalkReaches(moments[1..], limit, next, id, place);
    }
  }

  /** The walk ended, and the order matched at every request it made. */
  ghost predicate StoodThroughout(snapshots: seq<Orders>, request: ListRequest, id: Uuid)
    requires request.limit >= 1
  {
    var pages := Walk(snapshots, request, "");
    Ended(pages) && MatchesThroughout(snapshots, |pages|, request, id)
  }

  /** Whatever is committed between the requests, a walk that ends has returned every order that existed
      at its first request and matched throughout; with `NoOrderTwice`, exactly once. */
  lemma StandingOrdersAreReturned(snapshots: seq<Orders>, request: ListRequest, id: Uuid)
    requires ProperRequest(request) && Unfolding(snapshots)
    ensures StoodThroughout(snapshots, request, id) ==> Shows(AllOrders(Walk(snapshots, request, "")), id)
  {
    if StoodThroughout(snapshots, request, id) {
      StandingOrderIsReached(snapshots, request, id);
    }
  }

  lemma StandingOrderIsReached(snapshots: seq<Orders>, request: ListRequest, id: Uuid)
    requires ProperRequest(request) && Unfolding(snapshots) && StoodThroughout(snapshots, request, id)
    ensures Shows(AllOrders(Walk(snapshots, request, "")), id)
  {
    var moments := AnswersOf(snapshots, request);
    TextCursorsAreFaithful(snapshots, request);
    MatchingIsAskedFor(snapshots[0], request);
    var place := Place(CursorOf(snapshots[0][id]));
    var n := |KeyWalk(moments, request.limit, None)|;
    forall i, c: Option<Cursor> | 0 <= i < n && i < |moments| && (c.Some? ==> Place(c.value) < place)
      ensures ReachesOrStopsShort(moments[i](c), request.limit, id, place)
    {
      assert Later(snapshots[0], snapshots[i]);
      MatchingIsAskedFor(snapshots[i], request);
      QueryReachesOrStopsShort(snapshots[i], request, c, id);
    }
    KeyWalkReaches(moments, request.limit, None, id, place);
  }
}
