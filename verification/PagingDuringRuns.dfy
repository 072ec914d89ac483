/** Page walks while the writers run. */
module PagingDuringRuns {
  import opened Wrappers
  import opened Ids
  import opened Schema
  import opened Transactions
  import opened Serializability
  import opened Integrity
  import opened ConcurrentRuns
  import opened Pagination

  /** Some schedule of other sessions' steps runs between one request and the next. */
  predicate AllRun(s: State, schedules: seq<seq<Step>>)
    decreases |schedules|
  {
    schedules == [] || (Runs(s, schedules[0]) && AllRun(After(s, schedules[0]), schedules[1..]))
  }

  /** The committed orders at each request. */
  function Snapshots(s: State, schedules: seq<seq<Step>>): (snapshots: seq<Orders>)
    requires AllRun(s, schedules)
    ensures |snapshots| == |schedules| + 1 && snapshots[0] == s.tables.orders
    decreases |schedules|
  {
    [s.tables.orders] + (if schedules == [] then [] else Snapshots(After(s, schedules[0]), schedules[1..]))
  }

  /** All the steps of the first schedules. */
  function AllSteps(schedules: seq<seq<Step>>): seq<Step> {
    if schedules == [] then [] else schedules[0] + AllSteps(schedules[1..])
  }

  /** The `i`-th snapshot is what the first `i` schedules lead to. */
  lemma {:induction false} SnapshotIsReached(s: State, schedules: seq<seq<Step>>, i: nat)
    requires AllRun(s, schedules) && i <= |schedules|
    ensures Runs(s, AllSteps(schedules[..i]))
    ensures Snapshots(s, schedules)[i] == After(s, AllSteps(schedules[..i])).tables.orders
    decreases |schedules|
  {
    if i > 0 {
      SnapshotIsReached(After(s, schedules[0]), schedules[1..], i - 1);
      assert schedules[..i][1..] == schedules[1..][..i - 1];
      RunsConcat(s, schedules[0], AllSteps(schedules[1..][..i - 1]));
    }
  }

  lemma LaterTransitively(a: Orders, b: Orders, c: Orders)
    requires Later(a, b) && Later(b, c)
    ensures Later(a, c)
  {
    forall id | id in a ensures id in c && SameIdentity(a[id], c[id]) {
      assert id in b;
    }
  }

  lemma UnfoldingFromOneMore(first: Orders, rest: seq<Orders>)
    requires rest != [] && Unfolding(rest) && CarryTheirId(first) && Later(first, rest[0])
    ensures Unfolding([first] + rest)
  {
    var all := [first] + rest;
    forall i, j | 0 <= i <= j < |all| ensures Later(all[i], all[j]) {
      if i == 0 && j > 0 {
        assert Later(rest[0], rest[j - 1]);
        LaterTransitively(first, rest[0], rest[j - 1]);
      } else if i > 0 {
        assert Later(rest[i - 1], rest[j - 1]);
      }
    }
  }

  lemma StoredRowsCarryTheirId(s: State)
    requires Inv(s)
    ensures CarryTheirId(s.tables.orders)
  {
    CommittedTablesSatisfySchema(s.log);
  }

  lemma {:induction false} RunsUnfold(s: State, schedules: seq<seq<Step>>)
    requires Inv(s) && AllRun(s, schedules)
    ensures Unfolding(Snapshots(s, schedules))
    decreases |schedules|
  {
    StoredRowsCarryTheirId(s);
    if schedules != [] {
      var next := After(s, schedules[0]);
      RunKeepsInv(s, schedules[0]);
      RunsEvolve(s, schedules[0]);
      RunsUnfold(next, schedules[1..]);
      UnfoldingFromOneMore(s.tables.orders, Snapshots(next, schedules[1..]));
    }
  }

  /** From any reachable state, with any schedules of the writers between the requests: no order appears
      twice in the answers, and if the walk ends, an order that matched at every request appears. */
  lemma WalkDuringRun(s: State, schedules: seq<seq<Step>>, request: ListRequest, id: Uuid)
    requires Inv(s) && AllRun(s, schedules) && ProperRequest(request)
    ensures var rows := AllOrders(Walk(Snapshots(s, schedules), request, ""));
            && (forall i, j :: 0 <= i < j < |rows| ==> rows[i].id != rows[j].id)
            && (forall r :: 0 <= r < |rows| ==> AskedFor(rows[r], request))
            && (StoodThroughout(Snapshots(s, schedules), request, id) ==> Shows(rows, id))
  {
    var snapshots := Snapshots(s, schedules);
    RunsUnfold(s, schedules);
    NoOrderTwice(snapshots, request);
    WalkShowsWhatIsAskedFor(snapshots, request);
    StandingOrdersAreReturned(snapshots, request, id);
  }
}
