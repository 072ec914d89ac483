/**
 * The database server as one client sees it: the statements of internal/db/orders.sql.go executed in
 * the client's transaction while other sessions run in between.
 */
module Server {
  import opened Wrappers
  import opened Ids
  import opened Clock
  import opened StateMachine
  import opened Schema
  import opened Commands
  import opened AtomicSpec
  import opened Transactions
  import opened Serializability
  import opened AuditLog
  import opened Integrity

  /** What happens just before one of the client's statements: steps of other sessions, of which those
      that are enabled take place, and possibly a failure of the statement itself. */
  datatype Interlude = Interlude(steps: seq<Step>, fault: bool)

  class Database {
    var state: State
    var script: seq<Interlude>
    ghost var trace: seq<Step>

    /** The state is one that some schedule reaches from the empty database. */
    ghost predicate Valid()
      reads this
    {
      Leads(INITIAL, trace, state)
    }

    constructor (script: seq<Interlude>)
      ensures Valid() && state == INITIAL && this.script == script
    {
      state := INITIAL;
      this.script := script;
      trace := [];
    }

    lemma ValidMeansInv()
      requires Valid()
      ensures Inv(state)
    {
      LeadsMeansRuns(INITIAL, trace, state);
      RunKeepsInv(INITIAL, trace);
    }

    lemma ValidMeansNamesUsed()
      requires Valid()
      ensures NamesUsed(state)
    {
      ValidMeansInv();
    }

    lemma ValidMeansSerial()
      requires Valid()
      ensures Serial(state)
    {
      ValidMeansInv();
    }

    method Do(step: Step)
      requires Valid() && Enabled(state, step)
      modifies `state, `trace
      ensures Valid() && state == Next(old(state), step) && trace == old(trace) + [step]
    {
      LeadsOneFurther(INITIAL, trace, state, step);
      state := Next(state, step);
      trace := trace + [step];
    }

    /** Other sessions take their steps; transaction `t` is not among them. */
    method Interfere(t: TxId) returns (fault: bool)
      requires Valid()
      modifies this
      ensures Valid() && SameFor(t, old(state), state)
      ensures state == Played(t, old(state), NextSteps(old(script)))
      ensures fault == NextFault(old(script)) && script == Rest(old(script), 1)
    {
      if script == [] {
        return false;
      }
      var steps := script[0].steps;
      fault := script[0].fault;
      script := script[1..];
      for i := 0 to |steps|
        invariant Valid() && SameFor(t, old(state), state) && script == old(script)[1..]
        invariant Played(t, state, steps[i..]) == Played(t, old(state), steps)
      {
        assert steps[i..][1..] == steps[i + 1..];
        if steps[i].t != t && Enabled(state, steps[i]) {
          OthersStepsAreSameFor(state, steps[i], t);
          Do(steps[i]);
        }
      }
    }

    method BeginTx(t: TxId, now: Timestamp) returns (ok: bool)
      requires Valid() && t !in state.used
      modifies this
      ensures Valid() && old(state.log) <= state.log
      ensures ok == !NextFault(old(script)) && script == Rest(old(script), 1)
      ensures ok ==>
                && t in state.open && state.open[t] == Tx(now, Idle)
                && state == Begun(Played(t, old(state), NextSteps(old(script))), t, now)
      ensures TakesPlace(t, old(state), old(script), Begin(t, now)) == Reached(ok, state)
      ensures !ok ==> Absent(state, t)
    {
      var fault := Interfere(t);
      ValidMeansNamesUsed();
      ok := !fault;
      if ok {
        Do(Begin(t, now));
      }
    }

    /** Ends the transaction without effect; harmless when a failed statement has already ended it. */
    method Rollback(t: TxId)
      requires Valid() && (t in state.open || Absent(state, t))
      modifies `state, `trace
      ensures Valid() && Absent(state, t)
      ensures Quiet(old(state), state) && (t !in old(state.open) ==> state == old(state))
    {
      ValidMeansNamesUsed();
      if t in state.open {
        Do(Step.Rollback(t));
      }
    }

    /** The guarded statement a command starts with: `CreateOrder`, `CancelPendingOrder`,
        `UpdateOrderStatusIfCurrentStatusMatches` or `WorkerPickAndMovePendingOrdersToProcessing`. It
        returns the rows written; `seen` is the state it was executed in. A statement that would still
        have to wait then is given up. */
    method ExecGuarded(t: TxId, cmd: Command) returns (r: Result<seq<Order>, DbError>, ghost seen: State)
      requires Valid() && t in state.open && state.open[t].body.Idle?
      modifies this
      ensures Valid() && SameFor(t, old(state), seen)
      ensures seen == Played(t, old(state), NextSteps(old(script))) && script == Rest(old(script), 1)
      ensures state.log == seen.log && state.tables == seen.tables
      ensures TakesPlace(t, old(state), old(script), Guard(t, cmd)) == Reached(r.Ok?, state)
      ensures !NextFault(old(script)) && GuardOutcome(seen, t, cmd).Failed? ==> state == Close(seen, t)
      ensures r.Ok? <==> !NextFault(old(script)) && GuardOutcome(seen, t, cmd).Done?
      ensures r.Err? ==>
                r.error == if NextFault(old(script)) || GuardOutcome(seen, t, cmd).Blocked? then Interrupted
                           else GuardOutcome(seen, t, cmd).error
      ensures r.Ok? ==>
                && GuardHolds(seen.tables.orders, cmd, GuardOutcome(seen, t, cmd).value)
                && var moved := GuardOutcome(seen, t, cmd).value;
                   var now := old(state.open[t].now);
                   var rows := GuardRows(seen.tables.orders, cmd, moved, now);
                   && t in state.open && state.open[t] == Tx(now, Writing(cmd, moved, rows, [], []))
                   && |r.value| == |moved|
                   && forall i :: 0 <= i < |moved| ==> moved[i] in rows && r.value[i] == rows[moved[i]]
      ensures r.Err? ==> Absent(state, t)
      ensures old(script) == [] ==> Quiet(old(state), state)
    {
      var fault := Interfere(t);
      ValidMeansNamesUsed();
      seen := state;
      var outcome := GuardOutcome(state, t, cmd);
      if fault || outcome.Blocked? {
        Rollback(t);
        return Err(Interrupted), seen;
      }
      GuardDoneMeansHolds(state, t, cmd);
      if outcome.Done? {
        GuardRowsKeys(state.tables.orders, cmd, outcome.value, state.open[t].now);
      }
      Do(Guard(t, cmd));
      if outcome.Failed? {
        return Err(outcome.error), seen;
      }
      var body := state.open[t].body;
      r := Ok(seq(|body.moved|, i requires 0 <= i < |body.moved| => body.rows[body.moved[i]]));
    }

    method CreateOrderItem(t: TxId, input: ItemInput, orderId: Uuid) returns (r: Result<OrderItem, DbError>)
      requires Valid() && t in state.open && WantsItem(state.open[t].body, input, orderId)
      modifies this
      ensures Valid() && old(state.log) <= state.log
      ensures r.Ok? ==>
                && r.value == ItemRow(input, orderId, old(state.open[t].now))
                && t in state.open
                && state.open[t] == old(state.open[t]).(body := WithItem(old(state.open[t].body), r.value))
      ensures r.Err? ==> Absent(state, t) && !GuardError(r.error)
      ensures script == Rest(old(script), 1)
      ensures TakesPlace(t, old(state), old(script), InsertItem(t, input, orderId)) == Reached(r.Ok?, state)
      ensures old(script) == [] ==>
                && Quiet(old(state), state)
                && (r.Ok? <==> InsertItemOutcome(old(state), t, input, orderId).Done?)
    {
      var fault := Interfere(t);
      ValidMeansNamesUsed();
      var outcome := InsertItemOutcome(state, t, input, orderId);
      if fault || outcome.Blocked? {
        Rollback(t);
        return Err(Interrupted);
      }
      Do(InsertItem(t, input, orderId));
      if outcome.Failed? {
        return Err(outcome.error);
      }
      r := Ok(ItemRow(input, orderId, state.open[t].now));
    }

    method CreateOrderEvent(t: TxId, id: Uuid, params: EventParams) returns (r: Result<OrderEvent, DbError>)
      requires Valid() && t in state.open && WantsEvent(state.open[t].body, params)
      modifies this
      ensures Valid() && old(state.log) <= state.log
      ensures r.Ok? ==>
                && r.value == EventRow(params, id, old(state.open[t].now))
                && t in state.open
                && state.open[t] == old(state.open[t]).(body := WithEvent(old(state.open[t].body), r.value))
      ensures r.Err? ==> Absent(state, t) && !GuardError(r.error)
      ensures script == Rest(old(script), 1)
      ensures TakesPlace(t, old(state), old(script), InsertEvent(t, id, params)) == Reached(r.Ok?, state)
      ensures old(script) == [] ==>
                && Quiet(old(state), state)
                && (r.Ok? <==> InsertEventOutcome(old(state), t, id, params).Done?)
    {
      var fault := Interfere(t);
      ValidMeansNamesUsed();
      var outcome := InsertEventOutcome(state, t, id, params);
      if fault || outcome.Blocked? {
        Rollback(t);
        return Err(Interrupted);
      }
      Do(InsertEvent(t, id, params));
      if outcome.Failed? {
        return Err(outcome.error);
      }
      r := Ok(EventRow(params, id, state.open[t].now));
    }

    /** `GetOrderByIDAndCustomerID`, outside any transaction: `t` has not begun yet. */
    method QueryOrder(t: TxId, id: Uuid, customerId: Uuid) returns (r: Result<Option<Order>, DbError>)
      requires Valid()
      modifies this
      ensures Valid() && SameFor(t, old(state), state)
      ensures state == Played(t, old(state), NextSteps(old(script))) && script == Rest(old(script), 1)
      ensures r == if NextFault(old(script)) then Err(Interrupted)
                   else Ok(OwnedOrder(state.tables.orders, id, customerId))
      ensures r.Ok? ==>
                && (r.value.Some? <==> id in state.tables.orders && state.tables.orders[id].customerId == customerId)
                && (r.value.Some? ==> r.value.value == state.tables.orders[id])
    {
      var fault := Interfere(t);
      if fault {
        return Err(Interrupted);
      }
      r := Ok(OwnedOrder(state.tables.orders, id, customerId));
    }

    /** `GetOrderEventsByOrderID`: the order's events, in some order. */
    method QueryEvents(t: TxId, id: Uuid) returns (r: Result<seq<OrderEvent>, DbError>)
      requires Valid()
      modifies this
      ensures Valid() && SameFor(t, old(state), state)
      ensures state == Played(t, old(state), NextSteps(old(script))) && script == Rest(old(script), 1)
      ensures r.Ok? ==> multiset(r.value) == multiset(EventsOf(state.tables.events, id))
      ensures r.Err? <==> NextFault(old(script))
      ensures r.Err? ==> r.error == Interrupted
    {
      var fault := Interfere(t);
      if fault {
        return Err(Interrupted);
      }
      r := Ok(EventsOf(state.tables.events, id));
    }

    /** `GetOrderItemsByOrderID`: the order's lines, oldest first and by id among equals. */
    method QueryItems(t: TxId, id: Uuid) returns (r: Result<seq<OrderItem>, DbError>)
      requires Valid()
      modifies this
      ensures Valid() && SameFor(t, old(state), state)
      ensures state == Played(t, old(state), NextSteps(old(script))) && script == Rest(old(script), 1)
      ensures r.Ok? ==>
                && multiset(r.value) == multiset(ItemsOfOrder(state.tables.items, id))
                && ItemsByAge(r.value)
      ensures r.Err? <==> NextFault(old(script))
      ensures r.Err? ==> r.error == Interrupted
    {
      var fault := Interfere(t);
      if fault {
        return Err(Interrupted);
      }
      var rows := SortedByAge(ItemsOfOrder(state.tables.items, id));
      SortedIsByAge(rows);
      r := Ok(rows);
    }

    method Commit(t: TxId) returns (ok: bool)
      requires Valid() && t in state.open && ReadyToCommit(state.open[t].body)
      modifies this
      ensures Valid()
      ensures ok ==> CommittedBy(old(state), state, EntryOf(t, old(state.open[t])))
      ensures ok ==> RowsStored(state.tables, old(state.open[t].body))
      ensures !ok ==> Absent(state, t) && old(state.log) <= state.log
      ensures ok == !NextFault(old(script)) && script == Rest(old(script), 1)
      ensures TakesPlace(t, old(state), old(script), Step.Commit(t)) == Reached(ok, state)
      ensures old(script) == [] ==> CommitsAtOnce(old(state), state, t, EntryOf(t, old(state.open[t])))
    {
      var fault := Interfere(t);
      ValidMeansNamesUsed();
      ok := !fault;
      if ok {
        ghost var middle := state;
        assert TakesPlace(t, old(state), old(script), Step.Commit(t)) == Some(Next(middle, Step.Commit(t)));
        CommitNow(t);
        CommittedLater(old(state), middle, state, EntryOf(t, middle.open[t]));
      } else {
        Rollback(t);
      }
    }

    method CommitNow(t: TxId)
      requires Valid() && t in state.open && ReadyToCommit(state.open[t].body)
      modifies `state, `trace
      ensures Valid() && state == Next(old(state), Step.Commit(t))
      ensures CommitsAtOnce(old(state), state, t, EntryOf(t, old(state.open[t])))
      ensures CommittedBy(old(state), state, EntryOf(t, old(state.open[t])))
      ensures RowsStored(state.tables, old(state.open[t].body))
    {
      ValidMeansInv();
      CommitAtOnce(state, t);
      Do(Step.Commit(t));
    }
  }

  /** Nothing came between: the commit executes the entry on the tables as they were. */
  ghost predicate CommitsAtOnce(before: State, after: State, t: TxId, e: Entry) {
    && Allowed(before.tables, e) && after.tables == Apply(before.tables, e) && after.log == before.log + [e]
    && after.used == before.used && after.open == before.open - {t}
  }

  lemma CommitAtOnce(s: State, t: TxId)
    requires Inv(s) && Enabled(s, Commit(t))
    ensures var e := EntryOf(t, s.open[t]);
            var after := Next(s, Commit(t));
            && CommitsAtOnce(s, after, t, e)
            && CommittedBy(s, after, e)
            && RowsStored(after.tables, s.open[t].body)
  {
    CommitIsAtomic(s.tables, t, s.open[t]);
    var after := Next(s, Commit(t));
    assert after.log[..|s.log|] == s.log;
  }

  lemma CommittedLater(before: State, middle: State, after: State, e: Entry)
    requires before.log <= middle.log && CommittedBy(middle, after, e)
    ensures CommittedBy(before, after, e)
  {
  }

  /** The schedule leads from one state to the other. */
  ghost predicate Leads(s: State, steps: seq<Step>, end: State)
    decreases |steps|
  {
    if steps == [] then s == end else Enabled(s, steps[0]) && Leads(Next(s, steps[0]), steps[1..], end)
  }

  lemma {:induction false} LeadsMeansRuns(s: State, steps: seq<Step>, end: State)
    ensures Leads(s, steps, end) <==> Runs(s, steps) && After(s, steps) == end
    decreases |steps|
  {
    if steps != [] && Enabled(s, steps[0]) {
      LeadsMeansRuns(Next(s, steps[0]), steps[1..], end);
    }
  }

  /** A step at the end of a schedule. */
  lemma LeadsOneFurther(s: State, steps: seq<Step>, middle: State, step: Step)
    requires Leads(s, steps, middle) && Enabled(middle, step)
    ensures Leads(s, steps + [step], Next(middle, step))
  {
    LeadsMeansRuns(s, steps, middle);
    assert [step][1..] == [] && After(middle, [step]) == Next(middle, step);
    RunsConcat(s, steps, [step]);
    LeadsMeansRuns(s, steps + [step], Next(middle, step));
  }

  // ---- What other sessions do ----

  function NextSteps(script: seq<Interlude>): seq<Step> {
    if script == [] then [] else script[0].steps
  }

  predicate NextFault(script: seq<Interlude>) {
    script != [] && script[0].fault
  }

  /** The script after the first `n` interludes. */
  function Rest(script: seq<Interlude>, n: nat): seq<Interlude> {
    if |script| <= n then [] else script[n..]
  }

  lemma RestOfRest(script: seq<Interlude>, m: nat, n: nat)
    ensures Rest(Rest(script, m), n) == Rest(script, m + n)
  {
  }

  /** The state after those of the steps that are enabled and not transaction `t`'s own. */
  function Played(t: TxId, s: State, steps: seq<Step>): State
    decreases |steps|
  {
    if steps == [] then s
    else Played(t, if steps[0].t != t && Enabled(s, steps[0]) then Next(s, steps[0]) else s, steps[1..])
  }

  lemma {:induction false} PlayedIsAfter(t: TxId, s: State, steps: seq<Step>)
    requires Runs(s, steps) && forall i :: 0 <= i < |steps| ==> steps[i].t != t
    ensures Played(t, s, steps) == After(s, steps)
    decreases |steps|
  {
    if steps != [] {
      PlayedIsAfter(t, Next(s, steps[0]), steps[1..]);
    }
  }

  lemma {:induction false} PlayedIsSameFor(t: TxId, s: State, steps: seq<Step>)
    ensures SameFor(t, s, Played(t, s, steps))
    decreases |steps|
  {
    if steps != [] {
      if steps[0].t != t && Enabled(s, steps[0]) {
        OthersStepsAreSameFor(s, steps[0], t);
        PlayedIsSameFor(t, Next(s, steps[0]), steps[1..]);
      } else {
        PlayedIsSameFor(t, s, steps[1..]);
      }
    }
  }

  /** Those of the steps that take place. */
  function Taken(t: TxId, s: State, steps: seq<Step>): seq<Step>
    decreases |steps|
  {
    if steps == [] then []
    else if steps[0].t != t && Enabled(s, steps[0]) then [steps[0]] + Taken(t, Next(s, steps[0]), steps[1..])
    else Taken(t, s, steps[1..])
  }

  /** Whatever others do, it is a run of some of the steps. */
  lemma {:induction false} PlayedIsRun(t: TxId, s: State, steps: seq<Step>)
    ensures Runs(s, Taken(t, s, steps)) && After(s, Taken(t, s, steps)) == Played(t, s, steps)
    ensures forall step :: step in Taken(t, s, steps) ==> step in steps
    decreases |steps|
  {
    if steps != [] {
      if steps[0].t != t && Enabled(s, steps[0]) {
        var next := Next(s, steps[0]);
        PlayedIsRun(t, next, steps[1..]);
        assert ([steps[0]] + Taken(t, next, steps[1..]))[1..] == Taken(t, next, steps[1..]);
      } else {
        PlayedIsRun(t, s, steps[1..]);
      }
    }
  }

  // ---- Statements between interludes ----

  /** The statement is executed: it does not wait and does not fail. */
  predicate Succeeds(s: State, step: Step) {
    && Enabled(s, step)
    && match step
       case Guard(t, cmd) => GuardOutcome(s, t, cmd).Done?
       case InsertItem(t, input, orderId) => InsertItemOutcome(s, t, input, orderId).Done?
       case InsertEvent(t, id, params) => InsertEventOutcome(s, t, id, params).Done?
       case _ => true
  }

  /** The state after the next interlude and then the statement, if it is executed. */
  function TakesPlace(t: TxId, s: State, script: seq<Interlude>, step: Step): Option<State> {
    var now := Played(t, s, NextSteps(script));
    if NextFault(script) || !Succeeds(now, step) then None else Some(Next(now, step))
  }

  /** The state after all the statements, each preceded by the next interlude, if all are executed. */
  function Executed(t: TxId, s: State, script: seq<Interlude>, steps: seq<Step>): Option<State>
    decreases |steps|
  {
    if steps == [] then Some(s)
    else
      match TakesPlace(t, s, script, steps[0])
      case None => None
      case Some(next) => Executed(t, next, Rest(script, 1), steps[1..])
  }

  function Reached(ok: bool, s: State): Option<State> {
    if ok then Some(s) else None
  }

  lemma {:induction false} ExecutedConcat(t: TxId, s: State, script: seq<Interlude>, first: seq<Step>, second: seq<Step>)
    ensures Executed(t, s, script, first + second) ==
            match Executed(t, s, script, first)
            case None => None
            case Some(middle) => Executed(t, middle, Rest(script, |first|), second)
    decreases |first|
  {
    if first == [] {
      assert first + second == second && Rest(script, 0) == script;
    } else {
      assert (first + second)[1..] == first[1..] + second;
      var next := TakesPlace(t, s, script, first[0]);
      if next.Some? {
        ExecutedConcat(t, next.value, Rest(script, 1), first[1..], second);
        RestOfRest(script, 1, |first| - 1);
      }
    }
  }

  lemma ExecutedOne(t: TxId, s: State, script: seq<Interlude>, step: Step)
    ensures Executed(t, s, script, [step]) == TakesPlace(t, s, script, step)
  {
    assert [step][1..] == [];
  }

  /** The statements are executed one after another with nothing in between. */
  predicate AllSucceed(s: State, steps: seq<Step>)
    decreases |steps|
  {
    steps == [] || (Succeeds(s, steps[0]) && AllSucceed(Next(s, steps[0]), steps[1..]))
  }

  lemma SucceedsThen(s: State, step: Step, rest: seq<Step>)
    requires Succeeds(s, step) && AllSucceed(Next(s, step), rest)
    ensures AllSucceed(s, [step] + rest)
  {
    assert ([step] + rest)[1..] == rest;
  }

  predicate IsQuiet(interlude: Interlude) {
    interlude.steps == [] && !interlude.fault
  }

  lemma {:induction false} ExecutedQuietly(t: TxId, s: State, script: seq<Interlude>, steps: seq<Step>)
    requires AllSucceed(s, steps) && |steps| <= |script| && forall i :: 0 <= i < |steps| ==> IsQuiet(script[i])
    ensures Runs(s, steps) && Executed(t, s, script, steps) == Some(After(s, steps))
    decreases |steps|
  {
    if steps != [] {
      assert IsQuiet(script[0]) && Rest(script, 1) == script[1..];
      ExecutedQuietly(t, Next(s, steps[0]), script[1..], steps[1..]);
    }
  }

  /** `BEGIN`, for a name that is still unused. */
  function Begun(s: State, t: TxId, now: Timestamp): State {
    if t in s.used then s else Next(s, Begin(t, now))
  }

  /** Nothing is committed and nothing new is opened. */
  ghost predicate Quiet(before: State, after: State) {
    && after.tables == before.tables && after.log == before.log
    && after.used == before.used && after.open.Keys <= before.open.Keys
  }

  // ---- Listing lines ----

  /** `ORDER BY created_at ASC, id ASC` */
  predicate NotAfter(a: OrderItem, b: OrderItem) {
    Before(a.createdAt, b.createdAt) || (a.createdAt == b.createdAt && a.id <= b.id)
  }

  predicate IsSorted(items: seq<OrderItem>) {
    forall i, j :: 0 <= i < j < |items| ==> NotAfter(items[i], items[j])
  }

  /** No line stands before one that was created earlier, nor before one of the same time with a smaller id. */
  predicate ItemsByAge(items: seq<OrderItem>) {
    forall i, j :: 0 <= i < j < |items| ==>
      && !Before(items[j].createdAt, items[i].createdAt)
      && (items[j].createdAt == items[i].createdAt ==> items[i].id <= items[j].id)
  }

  lemma SortedIsByAge(items: seq<OrderItem>)
    requires IsSorted(items)
    ensures ItemsByAge(items)
  {
    forall i, j | 0 <= i < j < |items|
      ensures !Before(items[j].createdAt, items[i].createdAt)
      ensures items[j].createdAt == items[i].createdAt ==> items[i].id <= items[j].id
    {
      assert NotAfter(items[i], items[j]);
    }
  }

  lemma NotAfterIsTotalOrder(a: OrderItem, b: OrderItem, c: OrderItem)
    ensures NotAfter(a, b) || NotAfter(b, a)
    ensures NotAfter(a, b) && NotAfter(b, c) ==> NotAfter(a, c)
  {
    if Rank(a.createdAt) == Rank(b.createdAt) {
      RankIsInjective(a.createdAt, b.createdAt);
    }
  }

  function SortedByAge(items: seq<OrderItem>): (sorted: seq<OrderItem>)
    ensures multiset(sorted) == multiset(items) && IsSorted(sorted)
  {
    if items == [] then []
    else
      assert items == [items[0]] + items[1..];
      Inserted(items[0], SortedByAge(items[1..]))
  }

  function Inserted(item: OrderItem, sorted: seq<OrderItem>): (all: seq<OrderItem>)
    requires IsSorted(sorted)
    ensures multiset(all) == multiset(sorted) + multiset{item} && IsSorted(all)
  {
    if sorted == [] then [item]
    else
      NotAfterIsTotalOrder(item, sorted[0], sorted[0]);
      assert sorted == [sorted[0]] + sorted[1..];
      if NotAfter(item, sorted[0]) then
        FrontIsNotAfter(item, sorted);
        PrependKeepsOrder(item, sorted);
        [item] + sorted
      else
        var rest := Inserted(item, sorted[1..]);
        InsertedStaysBehind(sorted[0], item, sorted[1..], rest);
        PrependKeepsOrder(sorted[0], rest);
        [sorted[0]] + rest
  }

  lemma PrependKeepsOrder(first: OrderItem, rest: seq<OrderItem>)
    requires IsSorted(rest) && forall i :: 0 <= i < |rest| ==> NotAfter(first, rest[i])
    ensures IsSorted([first] + rest)
  {
  }

  lemma FrontIsNotAfter(item: OrderItem, sorted: seq<OrderItem>)
    requires IsSorted(sorted) && sorted != [] && NotAfter(item, sorted[0])
    ensures forall i :: 0 <= i < |sorted| ==> NotAfter(item, sorted[i])
  {
    forall i | 0 <= i < |sorted| ensures NotAfter(item, sorted[i]) {
      NotAfterIsTotalOrder(item, sorted[0], sorted[i]);
    }
  }

  lemma InsertedStaysBehind(first: OrderItem, item: OrderItem, others: seq<OrderItem>, rest: seq<OrderItem>)
    requires multiset(rest) == multiset(others) + multiset{item} && NotAfter(first, item)
    requires forall i :: 0 <= i < |others| ==> NotAfter(first, others[i])
    ensures forall i :: 0 <= i < |rest| ==> NotAfter(first, rest[i])
  {
    forall i | 0 <= i < |rest| ensures NotAfter(first, rest[i]) {
      assert rest[i] in multiset(rest);
      assert rest[i] == item || rest[i] in others;
    }
  }

  /** `WHERE id = $1 AND customer_id = $2` */
  function OwnedOrder(orders: map<Uuid, Order>, id: Uuid, customerId: Uuid): Option<Order> {
    if id in orders && orders[id].customerId == customerId then Some(orders[id]) else None
  }

  /** Errors that only a guarded statement gives: no row matched, or the idempotency key is taken. */
  predicate GuardError(error: DbError) {
    error == NoRows || error == UniqueViolation(CustomerIdempotencyKey)
  }

  function WithItem(body: Body, item: OrderItem): Body
    requires body.Writing?
  {
    body.(items := body.items + [item])
  }

  function WithEvent(body: Body, event: OrderEvent): Body
    requires body.Writing?
  {
    body.(events := body.events + [event])
  }

  /** Other sessions may have committed and opened transactions, but not touched `t`. */
  ghost predicate SameFor(t: TxId, before: State, after: State) {
    && before.log <= after.log
    && (forall i :: |before.log| <= i < |after.log| ==> after.log[i].t != t)
    && (t in before.used <==> t in after.used)
    && (t in before.open <==> t in after.open)
    && (t in before.open ==> after.open[t] == before.open[t])
  }

  lemma OthersStepsAreSameFor(s: State, step: Step, t: TxId)
    requires Enabled(s, step) && step.t != t
    ensures SameFor(t, s, Next(s, step))
  {
  }

  /** The transaction is over and nothing of it was committed. */
  ghost predicate Absent(s: State, t: TxId) {
    t !in s.open && forall i :: 0 <= i < |s.log| ==> s.log[i].t != t
  }

  ghost predicate RowsStored(tables: Tables, body: Body)
    requires body.Writing?
  {
    forall id :: id in body.rows ==> id in tables.orders && tables.orders[id] == body.rows[id]
  }

  /** The last commit is `e`, and the committed tables are its atomic effect on those before it. */
  ghost predicate CommittedBy(before: State, after: State, e: Entry) {
    && after.log != []
    && var n := |after.log| - 1;
       && after.log[n] == e
       && before.log <= after.log[..n]
       && Legal(after.log[..n]) && Allowed(Replay(after.log[..n]), e)
       && after.tables == Apply(Replay(after.log[..n]), e)
  }
}
