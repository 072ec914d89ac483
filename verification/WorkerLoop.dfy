/** The overlap guard and the shutdown of the background worker (internal/orders/worker.go:70-88). */
module WorkerLoop {
  import opened Wrappers

  /** Where the loop stands. `Won` and `Added` lie between its compare-and-swap and the start of the goroutine. */
  datatype LoopAt = Selecting | TickTaken | Won | Added | Draining | Returned

  /** Where a started goroutine stands: in runOnce, before `Store(false)`, before `Done()`, or past it. */
  datatype RunAt = Running | Ran | Cleared | Gone

  datatype State = State(loop: LoopAt, isRunning: bool, activeRuns: int, runs: seq<RunAt>,
                         cancelled: bool, ticks: nat, skipped: nat)

  const INITIAL := State(Selecting, false, 0, [], false, 0, 0)

  datatype Step =
    | Cancel
    | TakeTick
    | CompareAndSwap
    | Add
    | Go
    | TakeDone
    | WaitReturns
    | RunOnceReturns(run: nat)
    | StoreFalse(run: nat)
    | Done(run: nat)

  predicate Enabled(s: State, step: Step) {
    match step
    case Cancel => true
    case TakeTick => s.loop == Selecting
    case CompareAndSwap => s.loop == TickTaken
    case Add => s.loop == Won
    case Go => s.loop == Added
    case TakeDone => s.loop == Selecting && s.cancelled
    case WaitReturns => s.loop == Draining && s.activeRuns == 0
    case RunOnceReturns(run) => run < |s.runs| && s.runs[run] == Running
    case StoreFalse(run) => run < |s.runs| && s.runs[run] == Ran
    case Done(run) => run < |s.runs| && s.runs[run] == Cleared
  }

  function Next(s: State, step: Step): State
    requires Enabled(s, step)
  {
    match step
    case Cancel => s.(cancelled := true)
    case TakeTick => s.(loop := TickTaken, ticks := s.ticks + 1)
    case CompareAndSwap =>
      if s.isRunning then s.(loop := Selecting, skipped := s.skipped + 1)
      else s.(loop := Won, isRunning := true)
    case Add => s.(loop := Added, activeRuns := s.activeRuns + 1)
    case Go => s.(loop := Selecting, runs := s.runs + [Running])
    case TakeDone => s.(loop := Draining)
    case WaitReturns => s.(loop := Returned)
    case RunOnceReturns(run) => s.(runs := s.runs[run := Ran])
    case StoreFalse(run) => s.(runs := s.runs[run := Cleared], isRunning := false)
    case Done(run) => s.(runs := s.runs[run := Gone], activeRuns := s.activeRuns - 1)
  }

  predicate Runs(s: State, steps: seq<Step>)
    decreases |steps|
  {
    steps == [] || (Enabled(s, steps[0]) && Runs(Next(s, steps[0]), steps[1..]))
  }

  function After(s: State, steps: seq<Step>): State
    requires Runs(s, steps)
    decreases |steps|
  {
    if steps == [] then s else After(Next(s, steps[0]), steps[1..])
  }

  /** The goroutine has not yet stored false. */
  function Holds(run: RunAt): nat {
    if run == Running || run == Ran then 1 else 0
  }

  /** The goroutine has not yet called Done. */
  function Counted(run: RunAt): nat {
    if run == Gone then 0 else 1
  }

  function Total(measure: RunAt -> nat, runs: seq<RunAt>): nat {
    if runs == [] then 0 else Total(measure, runs[..|runs| - 1]) + measure(runs[|runs| - 1])
  }

  lemma {:induction false} TotalAfterUpdate(measure: RunAt -> nat, runs: seq<RunAt>, i: nat, run: RunAt)
    requires i < |runs|
    ensures Total(measure, runs[i := run]) == Total(measure, runs) - measure(runs[i]) + measure(run)
    decreases |runs|
  {
    var n := |runs| - 1;
    if i < n {
      TotalAfterUpdate(measure, runs[..n], i, run);
      assert runs[i := run][..n] == runs[..n][i := run];
    } else {
      assert runs[i := run][..n] == runs[..n];
    }
  }

  lemma TotalAfterAppend(measure: RunAt -> nat, runs: seq<RunAt>, run: RunAt)
    ensures Total(measure, runs + [run]) == Total(measure, runs) + measure(run)
  {
    assert (runs + [run])[..|runs|] == runs;
  }

  lemma {:induction false} TotalCoversEach(measure: RunAt -> nat, runs: seq<RunAt>, i: nat)
    requires i < |runs|
    ensures measure(runs[i]) <= Total(measure, runs)
    ensures forall j :: i < j < |runs| ==> measure(runs[i]) + measure(runs[j]) <= Total(measure, runs)
    decreases |runs|
  {
    var n := |runs| - 1;
    if i < n {
      TotalCoversEach(measure, runs[..n], i);
      forall j | i < j < |runs| ensures measure(runs[i]) + measure(runs[j]) <= Total(measure, runs) {
        if j < n {
          assert runs[..n][j] == runs[j];
        }
      }
    }
  }

  /** The loop itself holds the flag between winning it and starting the goroutine. */
  function LoopHolds(loop: LoopAt): nat {
    if loop == Won || loop == Added then 1 else 0
  }

  /** The flag has exactly one holder when it is set and none when it is clear; the wait group counts the
      runs not past Done; each tick taken started a run, was skipped, or is still being handled. */
  ghost predicate Inv(s: State) {
    && LoopHolds(s.loop) + Total(Holds, s.runs) == (if s.isRunning then 1 else 0)
    && s.activeRuns == Total(Counted, s.runs) + (if s.loop == Added then 1 else 0)
    && s.ticks == |s.runs| + s.skipped + (if s.loop == TickTaken || s.loop == Won || s.loop == Added then 1 else 0)
    && (s.loop == Draining || s.loop == Returned ==> s.cancelled)
    && (s.loop == Returned ==> Total(Counted, s.runs) == 0)
  }

  lemma LoopStepKeepsInv(s: State, step: Step)
    requires Inv(s) && Enabled(s, step)
    requires !step.RunOnceReturns? && !step.StoreFalse? && !step.Done?
    ensures Inv(Next(s, step))
  {
    TotalAfterAppend(Holds, s.runs, Running);
    TotalAfterAppend(Counted, s.runs, Running);
  }

  lemma GoroutineStepKeepsInv(s: State, step: Step, run: nat, at: RunAt)
    requires Inv(s) && Enabled(s, step)
    requires (step, at) in [(RunOnceReturns(run), Ran), (StoreFalse(run), Cleared), (Done(run), Gone)]
    ensures Inv(Next(s, step))
  {
    TotalAfterUpdate(Holds, s.runs, run, at);
    TotalAfterUpdate(Counted, s.runs, run, at);
    TotalCoversEach(Counted, s.runs, run);
  }

  lemma StepKeepsInv(s: State, step: Step)
    requires Inv(s) && Enabled(s, step)
    ensures Inv(Next(s, step))
  {
    match step
    case RunOnceReturns(run) => GoroutineStepKeepsInv(s, step, run, Ran);
    case StoreFalse(run) => GoroutineStepKeepsInv(s, step, run, Cleared);
    case Done(run) => GoroutineStepKeepsInv(s, step, run, Gone);
    case _ => LoopStepKeepsInv(s, step);
  }

  lemma {:induction false} RunKeepsInv(s: State, steps: seq<Step>)
    requires Inv(s) && Runs(s, steps)
    ensures Inv(After(s, steps))
    decreases |steps|
  {
    if steps != [] {
      StepKeepsInv(s, steps[0]);
      RunKeepsInv(Next(s, steps[0]), steps[1..]);
    }
  }

  /** In every interleaving, at most one goroutine is in runOnce or has not yet cleared the flag, and then
      the flag is set; while the loop starts a run no other run holds the flag. */
  lemma RunsNeverOverlap(steps: seq<Step>, i: nat, j: nat)
    requires Runs(INITIAL, steps)
    requires i < j < |After(INITIAL, steps).runs|
    ensures var s := After(INITIAL, steps);
            && !(Holds(s.runs[i]) == 1 && Holds(s.runs[j]) == 1)
            && (Holds(s.runs[i]) == 1 || Holds(s.runs[j]) == 1 ==> s.isRunning && LoopHolds(s.loop) == 0)
  {
    RunKeepsInv(INITIAL, steps);
    var s := After(INITIAL, steps);
    TotalCoversEach(Holds, s.runs, i);
    TotalCoversEach(Holds, s.runs, j);
  }

  lemma {:induction false} SomeoneHolds(runs: seq<RunAt>)
    requires Total(Holds, runs) > 0
    ensures exists i :: 0 <= i < |runs| && Holds(runs[i]) == 1
    decreases |runs|
  {
    var n := |runs| - 1;
    if Holds(runs[n]) == 0 {
      SomeoneHolds(runs[..n]);
      var i :| 0 <= i < n && Holds(runs[..n][i]) == 1;
      assert Holds(runs[i]) == 1;
    }
  }

  /** A set flag always has a holder that will clear it: it is never left behind. */
  lemma FlagIsNeverStuck(steps: seq<Step>)
    requires Runs(INITIAL, steps)
    ensures var s := After(INITIAL, steps);
            s.isRunning <==> s.loop == Won || s.loop == Added || exists i :: 0 <= i < |s.runs| && Holds(s.runs[i]) == 1
  {
    RunKeepsInv(INITIAL, steps);
    var s := After(INITIAL, steps);
    if s.isRunning && LoopHolds(s.loop) == 0 {
      SomeoneHolds(s.runs);
    }
    if i :| 0 <= i < |s.runs| && Holds(s.runs[i]) == 1 {
      TotalCoversEach(Holds, s.runs, i);
    }
  }

  /** `Run` returns only when every run it started is past Done, and by then every tick it took either
      started a run or was skipped. */
  lemma ReturnsOnlyWhenFinished(steps: seq<Step>, i: nat)
    requires Runs(INITIAL, steps)
    ensures var s := After(INITIAL, steps);
            s.loop == Returned ==>
              && s.activeRuns == 0 && s.ticks == |s.runs| + s.skipped && s.cancelled
              && (i < |s.runs| ==> s.runs[i] == Gone)
  {
    RunKeepsInv(INITIAL, steps);
    var s := After(INITIAL, steps);
    if s.loop == Returned && i < |s.runs| {
      TotalCoversEach(Counted, s.runs, i);
    }
  }

  lemma {:induction false} RunsConcat(s: State, first: seq<Step>, second: seq<Step>)
    requires Runs(s, first) && Runs(After(s, first), second)
    ensures Runs(s, first + second) && After(s, first + second) == After(After(s, first), second)
    decreases |first|
  {
    if first == [] {
      assert first + second == second;
    } else {
      RunsConcat(Next(s, first[0]), first[1..], second);
      assert (first + second)[1..] == first[1..] + second;
    }
  }

  /** One tick's run, up to where the flag is cleared and Done has not been called. */
  function Round(run: nat): seq<Step> {
    [TakeTick, CompareAndSwap, Add] + [Go, RunOnceReturns(run), StoreFalse(run)]
  }

  lemma RoundLeavesOneCounted(s: State)
    requires s.loop == Selecting && !s.isRunning
    ensures Runs(s, Round(|s.runs|))
    ensures var after := After(s, Round(|s.runs|));
            after == s.(activeRuns := s.activeRuns + 1, runs := s.runs + [Cleared], ticks := s.ticks + 1)
  {
    var n := |s.runs|;
    var won := s.(loop := Added, isRunning := true, activeRuns := s.activeRuns + 1, ticks := s.ticks + 1);
    ThreeSteps(s, TakeTick, CompareAndSwap, Add, won);
    var after := s.(activeRuns := s.activeRuns + 1, runs := s.runs + [Cleared], ticks := s.ticks + 1);
    assert (s.runs + [Running])[n := Ran][n := Cleared] == s.runs + [Cleared];
    ThreeSteps(won, Go, RunOnceReturns(n), StoreFalse(n), after);
    RunsConcat(s, [TakeTick, CompareAndSwap, Add], [Go, RunOnceReturns(n), StoreFalse(n)]);
  }

  lemma StepThen(s: State, step: Step, rest: seq<Step>)
    requires Enabled(s, step) && Runs(Next(s, step), rest)
    ensures Runs(s, [step] + rest) && After(s, [step] + rest) == After(Next(s, step), rest)
  {
    assert ([step] + rest)[1..] == rest;
  }

  lemma ThreeSteps(s: State, a: Step, b: Step, c: Step, after: State)
    requires Enabled(s, a) && Enabled(Next(s, a), b) && Enabled(Next(Next(s, a), b), c)
    requires Next(Next(Next(s, a), b), c) == after
    ensures Runs(s, [a, b, c]) && After(s, [a, b, c]) == after
  {
    StepThen(Next(Next(s, a), b), c, []);
    StepThen(Next(s, a), b, [c] + []);
    StepThen(s, a, [b] + ([c] + []));
    assert [a] + ([b] + ([c] + [])) == [a, b, c];
  }

  /** The flag is cleared before Done, so although runs never overlap, the wait group can count any number
      of them at once. */
  lemma {:induction false} WaitGroupCanReach(n: nat) returns (steps: seq<Step>)
    ensures Runs(INITIAL, steps)
    ensures var s := After(INITIAL, steps);
            s.activeRuns == n && s.loop == Selecting && !s.isRunning
  {
    if n == 0 {
      steps := [];
    } else {
      steps := WaitGroupCanReach(n - 1);
      var s := After(INITIAL, steps);
      RoundLeavesOneCounted(s);
      RunsConcat(INITIAL, steps, Round(|s.runs|));
      steps := steps + Round(|s.runs|);
    }
  }

  /** Steps a goroutine still has to take. */
  function StepsLeft(run: RunAt): nat {
    match run
    case Running => 3
    case Ran => 2
    case Cleared => 1
    case Gone => 0
  }

  function NextStepOf(run: RunAt, i: nat): Step
    requires run != Gone
  {
    match run
    case Running => RunOnceReturns(i)
    case Ran => StoreFalse(i)
    case Cleared => Done(i)
  }

  lemma {:induction false} SomeoneLeft(runs: seq<RunAt>) returns (i: nat)
    requires Total(Counted, runs) > 0
    ensures i < |runs| && runs[i] != Gone
    decreases |runs|
  {
    i := |runs| - 1;
    if runs[i] == Gone {
      i := SomeoneLeft(runs[..i]);
    }
  }

  lemma {:induction false} NothingLeft(runs: seq<RunAt>)
    requires Total(Counted, runs) == 0
    ensures Total(StepsLeft, runs) == 0
    decreases |runs|
  {
    if runs != [] {
      NothingLeft(runs[..|runs| - 1]);
    }
  }

  /** A step of a started goroutine. */
  predicate IsRunStep(step: Step) {
    step.RunOnceReturns? || step.StoreFalse? || step.Done?
  }

  /** Each step of a goroutine is one step less to take. */
  lemma {:induction false} RunStepsCount(s: State, steps: seq<Step>)
    requires Inv(s) && Runs(s, steps) && forall i :: 0 <= i < |steps| ==> IsRunStep(steps[i])
    ensures Inv(After(s, steps)) && After(s, steps).loop == s.loop
    ensures Total(StepsLeft, After(s, steps).runs) + |steps| == Total(StepsLeft, s.runs)
    decreases |steps|
  {
    if steps != [] {
      var next := Next(s, steps[0]);
      StepKeepsInv(s, steps[0]);
      OneStepLess(s, steps[0]);
      RunStepsCount(next, steps[1..]);
    }
  }

  lemma OneStepLess(s: State, step: Step)
    requires IsRunStep(step) && Enabled(s, step)
    ensures Next(s, step).loop == s.loop && Total(StepsLeft, Next(s, step).runs) + 1 == Total(StepsLeft, s.runs)
  {
    match step
    case RunOnceReturns(run) => TotalAfterUpdate(StepsLeft, s.runs, run, Ran);
    case StoreFalse(run) => TotalAfterUpdate(StepsLeft, s.runs, run, Cleared);
    case Done(run) => TotalAfterUpdate(StepsLeft, s.runs, run, Gone);
  }

  /** No goroutine has a step left. */
  ghost predicate RunsAreStill(s: State) {
    forall step :: IsRunStep(step) ==> !Enabled(s, step)
  }

  lemma StillMeansGone(s: State)
    requires RunsAreStill(s)
    ensures Total(Counted, s.runs) == 0 && Total(StepsLeft, s.runs) == 0
  {
    if Total(Counted, s.runs) > 0 {
      var i := SomeoneLeft(s.runs);
      assert Enabled(s, NextStepOf(s.runs[i], i));
    }
    NothingLeft(s.runs);
  }

  /** Shutdown cannot hang on the worker's own bookkeeping: once the loop waits, the started runs have a fixed
      number of steps left, and in whatever order they take them, when they have none left the loop returns. */
  lemma ShutdownCompletes(s: State, steps: seq<Step>)
    requires Inv(s) && s.loop == Draining
    requires Runs(s, steps) && forall i :: 0 <= i < |steps| ==> IsRunStep(steps[i])
    ensures |steps| <= Total(StepsLeft, s.runs)
    ensures RunsAreStill(After(s, steps)) <==> |steps| == Total(StepsLeft, s.runs)
    ensures RunsAreStill(After(s, steps)) ==>
              Enabled(After(s, steps), WaitReturns) && Next(After(s, steps), WaitReturns).loop == Returned
  {
    RunStepsCount(s, steps);
    var after := After(s, steps);
    if RunsAreStill(after) {
      StillMeansGone(after);
    } else {
      var step :| IsRunStep(step) && Enabled(after, step);
      OneStepLess(after, step);
    }
  }

  /** And such an order exists. */
  lemma {:induction false} ShutdownCanComplete(s: State) returns (steps: seq<Step>)
    requires Inv(s) && s.loop == Draining
    ensures Runs(s, steps) && After(s, steps).loop == Returned && |steps| == Total(StepsLeft, s.runs) + 1
    decreases Total(StepsLeft, s.runs)
  {
    if Total(Counted, s.runs) == 0 {
      NothingLeft(s.runs);
      StepThen(s, WaitReturns, []);
      steps := [WaitReturns] + [];
    } else {
      var i := SomeoneLeft(s.runs);
      var step := NextStepOf(s.runs[i], i);
      OneStepLess(s, step);
      StepKeepsInv(s, step);
      var rest := ShutdownCanComplete(Next(s, step));
      StepThen(s, step, rest);
      steps := [step] + rest;
    }
  }

  // ---- The code of the loop ----

  /** A step that the loop does not take itself. */
  predicate IsOthers(step: Step) {
    step.Cancel? || IsRunStep(step)
  }

  /** The state after those of the others' steps that are enabled. */
  function Played(s: State, steps: seq<Step>): State
    decreases |steps|
  {
    if steps == [] then s
    else Played(if IsOthers(steps[0]) && Enabled(s, steps[0]) then Next(s, steps[0]) else s, steps[1..])
  }

  /** The schedule leads from one state to the other. */
  ghost predicate Leads(s: State, steps: seq<Step>, end: State)
    decreases |steps|
  {
    if steps == [] then s == end else Enabled(s, steps[0]) && Leads(Next(s, steps[0]), steps[1..], end)
  }

  lemma {:induction false} LeadsMeansRuns(s: State, steps: seq<Step>, end: State)
    ensures Leads(s, steps, end) <==> Runs(s, steps) && After(s, steps) == end
    decreases |steps|
  {
    if steps != [] && Enabled(s, steps[0]) {
      LeadsMeansRuns(Next(s, steps[0]), steps[1..], end);
    }
  }

  /** A step at the end of a schedule. */
  lemma LeadsOneFurther(s: State, steps: seq<Step>, middle: State, step: Step)
    requires Leads(s, steps, middle) && Enabled(middle, step)
    ensures Leads(s, steps + [step], Next(middle, step))
  {
    LeadsMeansRuns(s, steps, middle);
    assert [step][1..] == [] && After(middle, [step]) == Next(middle, step);
    RunsConcat(s, steps, [step]);
    LeadsMeansRuns(s, steps + [step], Next(middle, step));
  }

  datatype RunResult =
    | BatchSizeRefused
    | Stopped
    | StillRunning  // the script of the other goroutines is used up

  class Worker {
    var isRunning: bool
    var activeRuns: int
    var runs: seq<RunAt>
    var cancelled: bool
    /** What the started goroutines and the canceller do before each action of the loop; of these
        steps the ones that are enabled take place. */
    var script: seq<seq<Step>>
    ghost var at: LoopAt
    ghost var ticks: nat
    ghost var skipped: nat
    ghost var trace: seq<Step>

    ghost function View(): State
      reads this
    {
      State(at, isRunning, activeRuns, runs, cancelled, ticks, skipped)
    }

    /** What has happened is a run of the transition system. */
    ghost predicate Valid()
      reads this
    {
      Leads(INITIAL, trace, View())
    }

    constructor (script: seq<seq<Step>>)
      ensures Valid() && at == Selecting && runs == [] && this.script == script
    {
      isRunning, activeRuns, runs, cancelled := false, 0, [], false;
      this.script := script;
      at, ticks, skipped, trace := Selecting, 0, 0, [];
    }

    /** Appends to the trace a step that has just been taken. */
    ghost method Record(before: State, step: Step)
      requires Leads(INITIAL, trace, before)
      requires Enabled(before, step) && View() == Next(before, step)
      modifies `trace
      ensures Valid() && trace == old(trace) + [step]
    {
      LeadsOneFurther(INITIAL, trace, before, step);
      trace := trace + [step];
    }

    /** A step of some other goroutine, if it is enabled. */
    method TakeOthers(step: Step)
      requires Valid()
      modifies `runs, `isRunning, `activeRuns, `cancelled, `trace
      ensures Valid() && |runs| == |old(runs)| && (old(cancelled) ==> cancelled)
      ensures View() == if IsOthers(step) && Enabled(old(View()), step) then Next(old(View()), step) else old(View())
    {
      ghost var before := View();
      match step {
        case Cancel =>
          cancelled := true;
        case RunOnceReturns(run) =>
          if run >= |runs| || runs[run] != Running { return; }
          runs := runs[run := Ran];
        case StoreFalse(run) =>
          if run >= |runs| || runs[run] != Ran { return; }
          runs, isRunning := runs[run := Cleared], false;
        case Done(run) =>
          if run >= |runs| || runs[run] != Cleared { return; }
          runs, activeRuns := runs[run := Gone], activeRuns - 1;
        case _ => return;
      }
      Record(before, step);
    }

    method Interfere()
      requires Valid()
      modifies `runs, `isRunning, `activeRuns, `cancelled, `trace, `script
      ensures Valid() && |runs| == |old(runs)| && (old(cancelled) ==> cancelled)
      ensures View() == Played(old(View()), if old(script) == [] then [] else old(script)[0])
      ensures script == if old(script) == [] then [] else old(script)[1..]
    {
      if script == [] {
        return;
      }
      var steps := script[0];
      script := script[1..];
      for i := 0 to |steps|
        invariant Valid() && |runs| == |old(runs)| && script == old(script)[1..] && (old(cancelled) ==> cancelled)
        invariant Played(View(), steps[i..]) == Played(old(View()), steps)
      {
        assert steps[i..][1..] == steps[i + 1..];
        TakeOthers(steps[i]);
      }
    }

    /** One tick: skipped if a run holds the flag when it is tested, otherwise it starts a run. */
    method HandleTick()
      requires Valid() && at == Selecting
      modifies this
      ensures Valid() && at == Selecting && ticks == old(ticks) + 1
      ensures var found := Played(old(View()).(loop := TickTaken, ticks := old(ticks) + 1),
                                  if old(script) == [] then [] else old(script)[0]);
              if found.isRunning then skipped == old(skipped) + 1 && |runs| == |old(runs)|
              else skipped == old(skipped) && |runs| == |old(runs)| + 1
      ensures |script| <= |old(script)| <= |script| + 3
    {
      ghost var before := View();
      at, ticks := TickTaken, ticks + 1;
      Record(before, TakeTick);
      Interfere();
      TestFlag();
    }

    /** `CompareAndSwap(false, true)` and what follows from it. */
    method TestFlag()
      requires Valid() && at == TickTaken
      modifies this
      ensures Valid() && at == Selecting && ticks == old(ticks)
      ensures if old(isRunning) then skipped == old(skipped) + 1 && |runs| == |old(runs)|
              else skipped == old(skipped) && |runs| == |old(runs)| + 1
      ensures |script| <= |old(script)| <= |script| + 2
    {
      ghost var before := View();
      if isRunning {
        at, skipped := Selecting, skipped + 1;
        Record(before, CompareAndSwap);
        return;
      }
      isRunning, at := true, Won;
      Record(before, CompareAndSwap);
      Interfere();
      StartRun();
    }

    /** `Add(1)` and `go`. */
    method StartRun()
      requires Valid() && at == Won
      modifies this
      ensures Valid() && at == Selecting && |runs| == |old(runs)| + 1
      ensures ticks == old(ticks) && skipped == old(skipped) && |script| <= |old(script)| <= |script| + 1
    {
      ghost var before := View();
      activeRuns, at := activeRuns + 1, Added;
      Record(before, Add);
      Interfere();
      before := View();
      runs, at := runs + [Running], Selecting;
      Record(before, Go);
    }

    /** `ctx.Done()` was chosen: waits for the started runs. */
    method Drain() returns (r: RunResult)
      requires Valid() && at == Selecting && cancelled
      modifies this
      ensures Valid() && (r == Stopped || r == StillRunning) && ticks == old(ticks)
      ensures r == Stopped ==> at == Returned && activeRuns == 0 && |runs| == |old(runs)|
      ensures r == StillRunning ==> at == Draining && cancelled && activeRuns != 0 && script == []
    {
      ghost var before := View();
      at := Draining;
      Record(before, TakeDone);
      while activeRuns != 0 && script != []
        invariant Valid() && at == Draining && cancelled && |runs| == |old(runs)| && ticks == old(ticks)
        decreases |script|
      {
        Interfere();
      }
      if activeRuns != 0 {
        return StillRunning;
      }
      before := View();
      at := Returned;
      Record(before, WaitReturns);
      r := Stopped;
    }

    /** The loop, for as long as the script lasts. Each turn takes a tick until one answers a cancellation; it
        stops only then, when every run it started is past Done and every tick it took either started a run or
        was skipped. */
    method Run(batchSize: int) returns (r: RunResult)
      requires Valid() && at == Selecting
      modifies this
      ensures Valid()
      ensures r == BatchSizeRefused <==> batchSize < 1
      ensures r == BatchSizeRefused ==> View() == old(View())
      ensures r == Stopped ==>
                && at == Returned && cancelled && activeRuns == 0
                && ticks == |runs| + skipped
                && forall i :: 0 <= i < |runs| ==> runs[i] == Gone
      ensures r == StillRunning ==>
                && script == []
                && (at == Selecting || (at == Draining && cancelled && activeRuns != 0))
                && (at == Selecting ==> |old(script)| <= 4 * (ticks - old(ticks)))
    {
      if batchSize < 1 {
        return BatchSizeRefused;
      }
      while script != []
        invariant Valid() && at == Selecting && ticks >= old(ticks)
        invariant |old(script)| <= |script| + 4 * (ticks - old(ticks))
        decreases |script|
      {
        Interfere();
        var doneChosen: bool := *;
        if cancelled && doneChosen {
          r := Drain();
          if r == Stopped {
            LeadsMeansRuns(INITIAL, trace, View());
            ReturnsOnlyWhenFinished(trace, 0);
            forall i | 0 <= i < |runs| ensures runs[i] == Gone {
              ReturnsOnlyWhenFinished(trace, i);
            }
          }
          return;
        }
        HandleTick();
      }
      r := StillRunning;
    }
  }
}
