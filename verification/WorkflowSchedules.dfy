/** What every schedule of a validated definition keeps, and where its loop can end. */
module WorkflowSchedules {
  import opened Wrappers
  import opened Digraph
  import opened Expressions
  import opened WorkflowSchema
  import opened WorkflowEngine
  import opened WorkflowConfluence

  predicate Distinct(ids: seq<string>) {
    forall i, j :: 0 <= i < j < |ids| ==> ids[i] != ids[j]
  }

  /** Every step is pending, in flight or settled, and only one of these. */
  ghost predicate Partitioned(sol: Solution, st: State) {
    && Distinct(st.pending)
    && (forall id :: id in sol <==> id in st.pending || id in st.inFlight || id in st.results)
    && (forall id :: id in st.pending ==> id !in st.inFlight && id !in st.results)
    && (forall id :: id in st.inFlight ==> id !in st.results)
  }

  /** What is settled is settled as the solution says, and what is in flight is meant to run. */
  ghost predicate Agrees(cfg: Config, sol: Solution, st: State) {
    && DependencyClosed(cfg, st.results.Keys)
    && (forall id :: id in st.results ==> id in sol && st.results[id] == sol[id].result)
    && (forall id :: id in st.results ==> (id in st.tainted <==> sol[id].tainted))
    && (forall id :: id in st.tainted ==> id in st.results)
    && (forall id :: id in st.inFlight ==> id in sol && id in cfg.byId && Deps(cfg, id) <= st.results.Keys)
    && (forall id :: id in st.inFlight ==> Runs(cfg, sol, id))
  }

  /** The solution runs the step instead of skipping it. */
  ghost predicate Runs(cfg: Config, sol: Solution, id: string) {
    && id in sol && id in cfg.byId
    && DepsSettled(cfg.byId[id], ResultsOf(sol))
    && VerdictIn(cfg, sol, id) == Run
  }

  ghost predicate Inv(cfg: Config, sol: Solution, st: State) {
    Partitioned(sol, st) && Agrees(cfg, sol, st)
  }

  lemma {:induction false} InitialInv(cfg: Config, sol: Solution)
    requires Indexed(cfg) && Solves(cfg, sol)
    ensures Inv(cfg, sol, Initial(cfg))
  {
    IdsMatch(cfg.steps);
  }

  /** A ready step gets the verdict the solution gives it, whatever else has settled. */
  lemma {:induction false} ReadyVerdict(cfg: Config, sol: Solution, st: State, id: string)
    requires Local(cfg) && Solves(cfg, sol) && Inv(cfg, sol, st) && Ready(cfg, st, id)
    ensures id in sol && DepsSettled(cfg.byId[id], ResultsOf(sol))
    ensures Eligibility(cfg.byId, cfg.vars, st.results, st.tainted, cfg.byId[id]) == VerdictIn(cfg, sol, id)
  {
    VerdictOnClosedSet(cfg, st.results.Keys, id, st.results, st.tainted, ResultsOf(sol), TaintedOf(sol));
  }

  lemma {:induction false} WithoutDistinct(ids: seq<string>, id: string)
    requires Distinct(ids)
    ensures Distinct(Without(ids, id))
  {
    if ids != [] {
      WithoutDistinct(ids[1..], id);
      assert ids[0] !in ids[1..];
    }
  }

  /** The state after a launch, read off the solution. */
  ghost function LaunchedAs(cfg: Config, sol: Solution, st: State, id: string): State
    requires id in sol
  {
    var rest := Without(st.pending, id);
    if Runs(cfg, sol, id) then st.(pending := rest, inFlight := st.inFlight + {id})
    else st.(pending := rest,
             results := st.results[id := sol[id].result],
             tainted := if sol[id].tainted then st.tainted + {id} else st.tainted)
  }

  lemma {:induction false} LaunchFollowsSolution(cfg: Config, sol: Solution, st: State, id: string)
    requires Local(cfg) && Solves(cfg, sol) && Inv(cfg, sol, st) && Ready(cfg, st, id)
    ensures id in sol && Launch(cfg, st, id) == Ok(LaunchedAs(cfg, sol, st, id))
  {
    ReadyVerdict(cfg, sol, st, id);
    assert SolvesAt(cfg, sol, id);
  }

  lemma {:induction false} LaunchPartitioned(cfg: Config, sol: Solution, st: State, id: string)
    requires Partitioned(sol, st) && id in st.pending && id in sol
    ensures Partitioned(sol, LaunchedAs(cfg, sol, st, id))
  {
    WithoutDistinct(st.pending, id);
  }

  lemma {:induction false} LaunchAgrees(cfg: Config, sol: Solution, st: State, id: string)
    requires Agrees(cfg, sol, st) && id in sol && Ready(cfg, st, id)
    requires id !in st.results && id !in st.inFlight
    ensures Agrees(cfg, sol, LaunchedAs(cfg, sol, st, id))
  {
    var next := LaunchedAs(cfg, sol, st, id);
    assert Deps(cfg, id) <= st.results.Keys;
    assert st.results.Keys <= next.results.Keys;
  }

  lemma {:induction false} LaunchInv(cfg: Config, sol: Solution, st: State, id: string)
    requires Local(cfg) && Solves(cfg, sol) && Inv(cfg, sol, st)
    requires Ready(cfg, st, id) && id in st.pending
    ensures id in sol && Launch(cfg, st, id) == Ok(LaunchedAs(cfg, sol, st, id))
    ensures Inv(cfg, sol, LaunchedAs(cfg, sol, st, id))
  {
    LaunchFollowsSolution(cfg, sol, st, id);
    LaunchPartitioned(cfg, sol, st, id);
    LaunchAgrees(cfg, sol, st, id);
  }

  /** What a pass has launched so far. */
  ghost predicate LaunchedFrom(cfg: Config, sol: Solution, st: State, ids: seq<string>, next: State) {
    && (forall x :: x in next.pending <==> x in st.pending && x !in ids)
    && (forall x :: x in next.inFlight <==> x in st.inFlight || (x in ids && Runs(cfg, sol, x)))
    && |next.pending| + |ids| <= |st.pending|
    && |next.inFlight| <= |st.inFlight| + |ids|
    && (forall x :: x in st.results ==> x in next.results)
  }

  ghost predicate AllReady(cfg: Config, st: State, ids: seq<string>) {
    Distinct(ids) && forall k :: 0 <= k < |ids| ==> Ready(cfg, st, ids[k]) && ids[k] in st.pending
  }

  lemma {:induction false} LaunchAllInv(cfg: Config, sol: Solution, st: State, ids: seq<string>)
    requires Local(cfg) && Solves(cfg, sol) && Inv(cfg, sol, st)
    requires AllReady(cfg, st, ids)
    ensures LaunchAll(cfg, st, ids).Ok?
    ensures Inv(cfg, sol, LaunchAll(cfg, st, ids).value)
    ensures LaunchedFrom(cfg, sol, st, ids, LaunchAll(cfg, st, ids).value)
    decreases |ids|
  {
    if ids != [] {
      var id, rest := ids[0], ids[1..];
      LaunchInv(cfg, sol, st, id);
      var next := LaunchedAs(cfg, sol, st, id);
      assert LaunchAll(cfg, st, ids) == LaunchAll(cfg, next, rest);
      StillReady(cfg, sol, st, ids);
      LaunchAllInv(cfg, sol, next, rest);
      LaunchedFromStep(cfg, sol, st, ids, LaunchAll(cfg, next, rest).value);
    }
  }

  lemma {:induction false} StillReady(cfg: Config, sol: Solution, st: State, ids: seq<string>)
    requires ids != [] && ids[0] in sol && AllReady(cfg, st, ids)
    ensures AllReady(cfg, LaunchedAs(cfg, sol, st, ids[0]), ids[1..])
  {
    var next := LaunchedAs(cfg, sol, st, ids[0]);
    forall k | 0 <= k < |ids[1..]|
      ensures Ready(cfg, next, ids[1..][k]) && ids[1..][k] in next.pending
    {
      assert ids[1..][k] == ids[k + 1];
      assert Ready(cfg, st, ids[k + 1]);
    }
  }

  lemma {:induction false} LaunchedFromStep(cfg: Config, sol: Solution, st: State, ids: seq<string>, last: State)
    requires ids != [] && ids[0] in sol && ids[0] in st.pending
    requires LaunchedFrom(cfg, sol, LaunchedAs(cfg, sol, st, ids[0]), ids[1..], last)
    ensures LaunchedFrom(cfg, sol, st, ids, last)
  {
    assert ids == [ids[0]] + ids[1..];
    var next := LaunchedAs(cfg, sol, st, ids[0]);
    assert |next.inFlight| <= |st.inFlight| + 1;
  }

  lemma {:induction false} ReadyIdsDistinct(cfg: Config, st: State, ids: seq<string>)
    requires Distinct(ids)
    ensures Distinct(ReadyIds(cfg, st, ids)) && |ReadyIds(cfg, st, ids)| <= |ids|
  {
    if ids != [] {
      ReadyIdsDistinct(cfg, st, ids[1..]);
    }
  }

  /** One pass never throws and keeps the invariant. */
  lemma {:induction false} PassInv(cfg: Config, sol: Solution, st: State) returns (next: State)
    requires Local(cfg) && Solves(cfg, sol) && Inv(cfg, sol, st)
    ensures LaunchAll(cfg, st, ToLaunch(cfg, st)) == Ok(next)
    ensures Inv(cfg, sol, next) && LaunchedFrom(cfg, sol, st, ToLaunch(cfg, st), next)
  {
    ReadyIdsDistinct(cfg, st, st.pending);
    LaunchAllInv(cfg, sol, st, ToLaunch(cfg, st));
    next := LaunchAll(cfg, st, ToLaunch(cfg, st)).value;
  }

  lemma {:induction false} RaceFollowsSolution(cfg: Config, sol: Solution, st: State, done: map<string, StepResult>)
    requires Solves(cfg, sol) && Agrees(cfg, sol, st) && IsRace(cfg, st, done)
    ensures forall id :: id in done ==>
      id in sol && done[id] == sol[id].result && (HardFailure(cfg, id, done[id]) <==> sol[id].tainted)
  {
    forall id | id in done
      ensures id in sol && done[id] == sol[id].result
      ensures HardFailure(cfg, id, done[id]) <==> sol[id].tainted
    {
      assert Runs(cfg, sol, id);
      assert SolvesAt(cfg, sol, id);
    }
  }

  lemma {:induction false} SettlePartitioned(cfg: Config, sol: Solution, st: State, done: map<string, StepResult>)
    requires Partitioned(sol, st) && IsRace(cfg, st, done)
    ensures Partitioned(sol, Settle(cfg, st, done))
  {
    assert Settle(cfg, st, done).results.Keys == st.results.Keys + done.Keys;
  }

  lemma {:induction false} SettleAgrees(cfg: Config, sol: Solution, st: State, done: map<string, StepResult>)
    requires Solves(cfg, sol) && Agrees(cfg, sol, st) && IsRace(cfg, st, done)
    requires forall id :: id in st.inFlight ==> id !in st.results
    ensures Agrees(cfg, sol, Settle(cfg, st, done))
  {
    RaceFollowsSolution(cfg, sol, st, done);
    var next := Settle(cfg, st, done);
    assert next.results.Keys == st.results.Keys + done.Keys;
    forall id | id in next.results
      ensures id in cfg.byId && Deps(cfg, id) <= st.results.Keys
      ensures id in sol && next.results[id] == sol[id].result
      ensures id in next.tainted <==> sol[id].tainted
    {
    }
  }

  lemma {:induction false} SettleInv(cfg: Config, sol: Solution, st: State, done: map<string, StepResult>)
    requires Local(cfg) && Solves(cfg, sol) && Inv(cfg, sol, st) && IsRace(cfg, st, done)
    ensures Inv(cfg, sol, Settle(cfg, st, done))
  {
    SettlePartitioned(cfg, sol, st, done);
    SettleAgrees(cfg, sol, st, done);
  }

  lemma {:induction false} NextInv(cfg: Config, sol: Solution, s: State, t: State)
    requires Local(cfg) && Solves(cfg, sol) && Inv(cfg, sol, s) && Next(cfg, s, t)
    ensures Inv(cfg, sol, t)
  {
    var launched := PassInv(cfg, sol, s);
    if launched.inFlight != {} {
      var done :| IsRace(cfg, launched, done) && t == Settle(cfg, launched, done);
      SettleInv(cfg, sol, launched, done);
    }
  }

  lemma {:induction false} RunPrefix(cfg: Config, run: seq<State>)
    requires IsRun(cfg, run) && |run| > 1
    ensures IsRun(cfg, run[..|run| - 1]) && Next(cfg, run[|run| - 2], run[|run| - 1])
  {
  }

  lemma {:induction false} RunKeepsInv(cfg: Config, sol: Solution, run: seq<State>)
    requires Local(cfg) && Solves(cfg, sol) && IsRun(cfg, run) && Inv(cfg, sol, run[0])
    ensures Inv(cfg, sol, run[|run| - 1])
    decreases |run|
  {
    var k := |run| - 1;
    if k > 0 {
      RunPrefix(cfg, run);
      RunKeepsInv(cfg, sol, run[..k]);
      NextInv(cfg, sol, run[k - 1], run[k]);
    }
  }

  lemma {:induction false} RunInv(cfg: Config, sol: Solution, run: seq<State>)
    requires Sound(cfg) && Solves(cfg, sol) && IsRun(cfg, run)
    ensures Inv(cfg, sol, run[|run| - 1]) && Inv(cfg, sol, run[0])
  {
    SoundIsLocal(cfg);
    InitialInv(cfg, sol);
    RunKeepsInv(cfg, sol, run);
  }

  /** Confluence: whatever any schedule records is what the dependency graph means. */
  lemma {:induction false} EveryScheduleAgrees(cfg: Config, sol: Solution, run: seq<State>)
    requires Sound(cfg) && Solves(cfg, sol) && IsRun(cfg, run)
    ensures var st := run[|run| - 1];
      forall id :: id in st.results ==>
        id in sol && st.results[id] == sol[id].result && (id in st.tainted <==> sol[id].tainted)
  {
    RunInv(cfg, sol, run);
  }

  /** Two schedules never record different results for one step. */
  lemma {:induction false} SchedulesAgree(cfg: Config, run0: seq<State>, run1: seq<State>, id: string)
    requires Sound(cfg) && IsRun(cfg, run0) && IsRun(cfg, run1)
    requires id in run0[|run0| - 1].results && id in run1[|run1| - 1].results
    ensures run0[|run0| - 1].results[id] == run1[|run1| - 1].results[id]
    ensures id in run0[|run0| - 1].tainted <==> id in run1[|run1| - 1].tainted
  {
    var sol := SolutionExists(cfg);
    EveryScheduleAgrees(cfg, sol, run0);
    EveryScheduleAgrees(cfg, sol, run1);
  }

  // ------------------------------------------------------------------ progress

  /** Of the pending steps one of least rank is ready, once nothing it needs is in flight. */
  lemma {:induction false} SomeStepIsReady(cfg: Config, sol: Solution, rank: map<string, nat>, st: State)
    returns (id: string)
    requires IsStepRanking(cfg, rank) && Solves(cfg, sol) && Inv(cfg, sol, st) && st.pending != []
    requires forall x, y :: x in st.pending && y in st.inFlight ==> y !in Deps(cfg, x)
    ensures id in st.pending && Ready(cfg, st, id)
  {
    var waiting := set x | x in st.pending;
    assert st.pending[0] in waiting;
    id := LeastRanked(waiting, rank);
    forall d | d in Deps(cfg, id)
      ensures d in st.results
    {
      assert d in sol;
    }
  }

  /** With nothing running there is room for a ready step, under every limit. */
  lemma {:induction false} ReadyIsLaunched(cfg: Config, st: State, id: string)
    requires id in st.pending && Ready(cfg, st, id) && st.inFlight == {}
    ensures ToLaunch(cfg, st) != []
  {
    assert id in ReadyIds(cfg, st, st.pending);
  }

  /** The "unresolved dependency graph" branch is unreachable from any loop state, and nothing throws. */
  lemma {:induction false} NeverStuck(cfg: Config, run: seq<State>)
    requires Sound(cfg) && IsRun(cfg, run) && run[|run| - 1].pending != []
    ensures !Stuck(cfg, run[|run| - 1])
    ensures LaunchAll(cfg, run[|run| - 1], ToLaunch(cfg, run[|run| - 1])).Ok?
  {
    SoundIsLocal(cfg);
    var sol := SolutionExists(cfg);
    var st := run[|run| - 1];
    RunInv(cfg, sol, run);
    var _ := PassInv(cfg, sol, st);
    if st.inFlight == {} {
      var rank := StepRanking(cfg);
      var id := SomeStepIsReady(cfg, sol, rank, st);
      ReadyIsLaunched(cfg, st, id);
    }
  }

  // --------------------------------------------------------------- where it ends

  /** The steps nobody depends on that the solution runs. */
  ghost function RunningSinks(cfg: Config, sol: Solution): set<string> {
    set id | id in Sinks(cfg.steps) && Runs(cfg, sol, id)
  }

  lemma {:induction false} ByIdOfUnique(steps: seq<Step>, i: nat)
    requires i < |steps| && UniqueIds(Raw(steps))
    ensures ById(steps)[steps[i].id] == steps[i]
  {
    var found := ById(steps)[steps[i].id];
    assert found.id == steps[i].id && found in steps;
    var j :| 0 <= j < |steps| && steps[j] == found;
    assert Raw(steps)[i].id == Raw(steps)[j].id;
    assert i == j;
  }

  /** What some declared step depends on is among that step's dependencies. */
  lemma {:induction false} DeclaredDependency(steps: seq<Step>, i: nat)
    requires i < |steps| && UniqueIds(Raw(steps))
    ensures steps[i].id in StepIds(steps) && steps[i].id in ById(steps) && ById(steps)[steps[i].id] == steps[i]
  {
    ByIdOfUnique(steps, i);
    assert Raw(steps)[i].id == steps[i].id;
  }

  /** With nothing pending, whatever is in flight is a sink. */
  lemma {:induction false} LastInFlightAreSinks(cfg: Config, sol: Solution, st: State)
    requires Sound(cfg) && Solves(cfg, sol) && Inv(cfg, sol, st) && st.pending == []
    ensures st.inFlight <= RunningSinks(cfg, sol)
  {
    forall id | id in st.inFlight
      ensures id in RunningSinks(cfg, sol)
    {
      InFlightIsSink(cfg, sol, st, id);
    }
  }

  lemma {:induction false} InFlightIsSink(cfg: Config, sol: Solution, st: State, id: string)
    requires Indexed(cfg) && Solves(cfg, sol) && Inv(cfg, sol, st) && st.pending == [] && id in st.inFlight
    ensures IsSink(cfg.steps, id)
  {
    IdsMatch(cfg.steps);
    forall i | 0 <= i < |cfg.steps|
      ensures id !in cfg.steps[i].dependsOn
    {
      DeclaredDependency(cfg.steps, i);
      NotNeededInFlight(cfg, sol, st, id, cfg.steps[i].id);
    }
  }

  lemma {:induction false} NotNeededInFlight(cfg: Config, sol: Solution, st: State, id: string, x: string)
    requires Solves(cfg, sol) && Inv(cfg, sol, st) && st.pending == [] && id in st.inFlight && x in cfg.byId
    ensures id !in Deps(cfg, x)
  {
    assert x in sol;
  }

  lemma {:induction false} AtMostOne(s: set<string>, t: set<string>, x: string)
    requires s <= t && |t| <= 1 && x in s
    ensures s == {x}
  {
    SubsetSize(t - {x}, t);
    assert t == {x} + (t - {x});
  }

  lemma {:induction false} SubsetSize(s: set<string>, t: set<string>)
    requires s <= t
    ensures |s| <= |t|
  {
    assert t == s + (t - s);
  }

  /** No more steps are in flight than the limit allows. */
  lemma {:induction false} WithinLimit(cfg: Config, sol: Solution, s: State, launched: State)
    requires Local(cfg) && Solves(cfg, sol) && Inv(cfg, sol, s)
    requires cfg.concurrency.Some? && cfg.concurrency.value >= 1 && |s.inFlight| <= cfg.concurrency.value
    requires LaunchAll(cfg, s, ToLaunch(cfg, s)) == Ok(launched)
    ensures |launched.inFlight| <= cfg.concurrency.value
  {
    var next := PassInv(cfg, sol, s);
  }

  lemma {:induction false} RunWithinLimit(cfg: Config, sol: Solution, run: seq<State>)
    requires Local(cfg) && Solves(cfg, sol) && IsRun(cfg, run) && Inv(cfg, sol, run[0])
    requires cfg.concurrency.Some? && cfg.concurrency.value >= 1
    ensures |run[|run| - 1].inFlight| <= cfg.concurrency.value
    decreases |run|
  {
    var k := |run| - 1;
    if k > 0 {
      RunPrefix(cfg, run);
      RunWithinLimit(cfg, sol, run[..k]);
      RunKeepsInv(cfg, sol, run[..k]);
      NextWithinLimit(cfg, sol, run[k - 1], run[k]);
    }
  }

  lemma {:induction false} NextWithinLimit(cfg: Config, sol: Solution, s: State, t: State)
    requires Local(cfg) && Solves(cfg, sol) && Inv(cfg, sol, s) && Next(cfg, s, t)
    requires cfg.concurrency.Some? && cfg.concurrency.value >= 1 && |s.inFlight| <= cfg.concurrency.value
    ensures |t.inFlight| <= cfg.concurrency.value
  {
    var launched := PassInv(cfg, sol, s);
    WithinLimit(cfg, sol, s, launched);
    SubsetSize(t.inFlight, launched.inFlight);
  }

  /** One step at a time, or one step at the end: either way the loop ends with every step settled. */
  ghost predicate Serial(cfg: Config, sol: Solution) {
    cfg.concurrency == Some(1) || |RunningSinks(cfg, sol)| <= 1
  }

  lemma {:induction false} LastStepLeavesNothing(cfg: Config, sol: Solution, s: State, t: State)
    requires Sound(cfg) && Solves(cfg, sol) && Inv(cfg, sol, s) && Serial(cfg, sol)
    requires cfg.concurrency == Some(1) ==> |s.inFlight| <= 1
    requires Next(cfg, s, t) && t.pending == []
    ensures t.inFlight == {}
  {
    SoundIsLocal(cfg);
    var launched := PassInv(cfg, sol, s);
    if launched.inFlight != {} {
      var done :| IsRace(cfg, launched, done) && t == Settle(cfg, launched, done);
      var x :| x in done.Keys;
      if cfg.concurrency == Some(1) {
        WithinLimit(cfg, sol, s, launched);
        AtMostOne(launched.inFlight, launched.inFlight, x);
      } else {
        LastInFlightAreSinks(cfg, sol, launched);
        AtMostOne(launched.inFlight, RunningSinks(cfg, sol), x);
      }
    }
  }

  lemma {:induction false} AllSettled(cfg: Config, sol: Solution, st: State)
    requires Inv(cfg, sol, st) && st.pending == [] && st.inFlight == {}
    ensures st.results == ResultsOf(sol) && st.tainted == TaintedOf(sol)
  {
    assert st.results.Keys == sol.Keys;
  }

  lemma {:induction false} FullRunSettlesAll(cfg: Config, sol: Solution, run: seq<State>)
    requires Sound(cfg) && Solves(cfg, sol) && IsFullRun(cfg, run) && Serial(cfg, sol)
    ensures run[|run| - 1].results == ResultsOf(sol)
    ensures run[|run| - 1].tainted == TaintedOf(sol)
  {
    var k := |run| - 1;
    RunInv(cfg, sol, run);
    if k > 0 {
      RunPrefix(cfg, run);
      RunInv(cfg, sol, run[..k]);
      if cfg.concurrency == Some(1) {
        SoundIsLocal(cfg);
        RunWithinLimit(cfg, sol, run[..k]);
      }
      LastStepLeavesNothing(cfg, sol, run[k - 1], run[k]);
    }
    AllSettled(cfg, sol, run[k]);
  }

  // ------------------------------------------------------------------ the status

  /** The status of the workflow as the dependency graph means it. */
  ghost predicate MeansSuccess(cfg: Config, sol: Solution)
  {
    forall id :: id in Sinks(cfg.steps) && id in sol ==> !sol[id].tainted
  }

  lemma {:induction false} SinksAreSteps(cfg: Config, sol: Solution)
    requires Indexed(cfg) && Solves(cfg, sol)
    ensures Sinks(cfg.steps) <= sol.Keys
  {
    IdsMatch(cfg.steps);
  }

  lemma {:induction false} StatusBySinks(cfg: Config, st: State)
    requires Indexed(cfg)
    ensures ComputeStatus(cfg, st) == WorkflowSucceeded <==>
      forall id :: id in Sinks(cfg.steps) ==> id in cfg.byId && EndedWell(cfg.byId[id], st)
  {
    IndexKeys(cfg);
    if forall id :: id in Sinks(cfg.steps) ==> id in cfg.byId && EndedWell(cfg.byId[id], st) {
      forall i | 0 <= i < |cfg.steps| && IsSink(cfg.steps, cfg.steps[i].id)
        ensures EndedWell(cfg.steps[i], st)
      {
        DeclaredDependency(cfg.steps, i);
        assert cfg.steps[i].id in Sinks(cfg.steps);
      }
    }
    if ComputeStatus(cfg, st) == WorkflowSucceeded {
      forall id | id in Sinks(cfg.steps)
        ensures id in cfg.byId && EndedWell(cfg.byId[id], st)
      {
        var i :| 0 <= i < |cfg.steps| && cfg.steps[i] == cfg.byId[id];
        assert cfg.steps[i].id == id;
      }
    }
  }

  lemma {:induction false} StatusOfSolution(cfg: Config, sol: Solution, st: State)
    requires Solves(cfg, sol) && Indexed(cfg)
    requires st.results == ResultsOf(sol) && st.tainted == TaintedOf(sol)
    ensures ComputeStatus(cfg, st) == WorkflowSucceeded <==> MeansSuccess(cfg, sol)
  {
    SinksAreSteps(cfg, sol);
    StatusBySinks(cfg, st);
    forall id | id in Sinks(cfg.steps)
      ensures id in sol && (EndedWell(cfg.byId[id], st) <==> !sol[id].tainted)
    {
      TaintedMeansFailedOrSkipped(cfg, sol, id);
    }
  }

  lemma {:induction false} FullRunStatus(cfg: Config, sol: Solution, run: seq<State>)
    requires Sound(cfg) && Solves(cfg, sol) && IsFullRun(cfg, run) && Serial(cfg, sol)
    ensures ComputeStatus(cfg, run[|run| - 1]) == WorkflowSucceeded <==> MeansSuccess(cfg, sol)
  {
    FullRunSettlesAll(cfg, sol, run);
    StatusOfSolution(cfg, sol, run[|run| - 1]);
  }

  lemma {:induction false} TaintedMeansFailedOrSkipped(cfg: Config, sol: Solution, id: string)
    requires Solves(cfg, sol) && id in sol
    ensures sol[id].tainted <==> HardFailure(cfg, id, sol[id].result) || (sol[id].result.status == Skipped && sol[id].tainted)
    ensures !Runs(cfg, sol, id) <==> sol[id].result.status == Skipped
  {
    assert SolvesAt(cfg, sol, id);
    RetriesStopAtFirstSuccess(AttemptsOf(cfg, id), cfg.byId[id].maxAttempts);
  }
}
