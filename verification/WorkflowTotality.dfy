/**
 * When the scheduler's loop can end with tasks still in flight. Its guard looks at pending steps
 * only and each pass races for one task, so two concurrent sinks can leave one without a result.
 */
module WorkflowTotality {
  import opened Wrappers
  import opened Digraph
  import opened Expressions
  import opened WorkflowSchema
  import opened WorkflowEngine
  import opened WorkflowConfluence
  import opened WorkflowSchedules

  /** The steps are run unconditionally and at least once, as far as their own declarations go. */
  ghost predicate Unconditional(cfg: Config) {
    forall id :: id in cfg.byId ==> cfg.byId[id].when.None? && cfg.byId[id].maxAttempts >= 1
  }

  /** A limit that leaves room for two steps at a time. */
  predicate Concurrent(cfg: Config) {
    cfg.concurrency != Some(1)
  }

  /** The solution runs every step. */
  ghost predicate RunsAll(cfg: Config, sol: Solution) {
    forall id :: id in sol ==> Runs(cfg, sol, id)
  }

  function AlwaysSucceeds(byId: map<string, Step>): map<string, seq<Attempt>> {
    map id | id in byId :: [Succeeds(map[])]
  }

  lemma {:induction false} UnconditionalIsSound(cfg: Config)
    requires Indexed(cfg) && Unconditional(cfg)
    ensures Sound(cfg)
  {
    forall i | 0 <= i < |cfg.steps|
      ensures cfg.steps[i].when.None?
    {
      ByIdOfUnique(cfg.steps, i);
    }
  }

  lemma {:induction false} SuccessRuns(
    cfg: Config, sol: Solution, rank: map<string, nat>, id: string)
    requires Solves(cfg, sol) && Unconditional(cfg) && IsStepRanking(cfg, rank) && id in sol
    requires cfg.attempts == AlwaysSucceeds(cfg.byId)
    ensures Runs(cfg, sol, id) && sol[id].result.status == Succeeded
    decreases rank[id]
  {
    assert SolvesAt(cfg, sol, id);
    forall d | d in Deps(cfg, id)
      ensures d in sol && sol[d].result.status == Succeeded
    {
      SuccessRuns(cfg, sol, rank, d);
    }
    RetriesStopAtFirstSuccess(AttemptsOf(cfg, id), cfg.byId[id].maxAttempts);
    assert At(AttemptsOf(cfg, id), 1).Succeeds?;
  }

  lemma {:induction false} GreatestRanked(s: set<string>, rank: map<string, nat>) returns (m: string)
    requires s != {} && s <= rank.Keys
    ensures m in s && forall x :: x in s ==> rank[x] <= rank[m]
    decreases |s|
  {
    m :| m in s;
    if s != {m} {
      var n := GreatestRanked(s - {m}, rank);
      if rank[n] > rank[m] {
        m := n;
      }
    }
  }

  /** The steps no step depends on, by the index. */
  ghost function Leaves(cfg: Config): set<string> {
    set id | id in cfg.byId && forall x :: x in cfg.byId ==> id !in Deps(cfg, x)
  }

  lemma {:induction false} SinkIsLeaf(cfg: Config, id: string)
    requires Indexed(cfg) && id in Sinks(cfg.steps)
    ensures id in Leaves(cfg)
  {
    IndexKeys(cfg);
    forall x | x in cfg.byId
      ensures id !in Deps(cfg, x)
    {
      var i :| 0 <= i < |cfg.steps| && cfg.steps[i] == cfg.byId[x];
    }
  }

  lemma {:induction false} LeafIsSink(cfg: Config, id: string)
    requires Indexed(cfg) && id in Leaves(cfg)
    ensures id in Sinks(cfg.steps)
  {
    IndexKeys(cfg);
    forall i | 0 <= i < |cfg.steps|
      ensures id !in cfg.steps[i].dependsOn
    {
      DeclaredDependency(cfg.steps, i);
      assert id !in Deps(cfg, cfg.steps[i].id);
    }
  }

  lemma {:induction false} SinksAreLeaves(cfg: Config)
    requires Indexed(cfg)
    ensures Sinks(cfg.steps) == Leaves(cfg)
  {
    forall id | id in Sinks(cfg.steps)
      ensures id in Leaves(cfg)
    {
      SinkIsLeaf(cfg, id);
    }
    forall id | id in Leaves(cfg)
      ensures id in Sinks(cfg.steps)
    {
      LeafIsSink(cfg, id);
    }
  }

  /** What depends on a pending step is pending. */
  lemma {:induction false} DependentIsPending(cfg: Config, sol: Solution, st: State, id: string, x: string)
    requires Solves(cfg, sol) && Inv(cfg, sol, st) && id in st.pending && x in cfg.byId && id in Deps(cfg, x)
    ensures x in st.pending
  {
    assert x in sol;
  }

  /** While steps are pending, some sink is. */
  lemma {:induction false} PendingSink(cfg: Config, sol: Solution, rank: map<string, nat>, st: State)
    returns (sink: string)
    requires IsStepRanking(cfg, rank) && Solves(cfg, sol) && Inv(cfg, sol, st) && st.pending != []
    ensures sink in st.pending && sink in Leaves(cfg)
  {
    var waiting := set x | x in st.pending;
    assert st.pending[0] in waiting;
    sink := GreatestRanked(waiting, rank);
    assert forall x :: x in st.pending ==> x in waiting && rank[x] <= rank[sink];
    forall x | x in cfg.byId
      ensures sink !in Deps(cfg, x)
    {
      if sink in Deps(cfg, x) {
        DependentIsPending(cfg, sol, st, sink, x);
      }
    }
  }

  lemma {:induction false} DistinctSize(ids: seq<string>)
    requires Distinct(ids)
    ensures |set x | x in ids| == |ids|
  {
    if ids != [] {
      DistinctSize(ids[1..]);
      assert (set x | x in ids) == {ids[0]} + set x | x in ids[1..];
    }
  }

  lemma {:induction false} ToLaunchDistinct(cfg: Config, st: State)
    requires Distinct(st.pending)
    ensures Distinct(ToLaunch(cfg, st))
  {
    ReadyIdsDistinct(cfg, st, st.pending);
  }

  lemma {:induction false} PassSettlesNothing(cfg: Config, sol: Solution, st: State, launched: State)
    requires RunsAll(cfg, sol) && Partitioned(sol, st) && Partitioned(sol, launched)
    requires LaunchedFrom(cfg, sol, st, ToLaunch(cfg, st), launched)
    ensures launched.results.Keys == st.results.Keys
  {
    forall x | x in launched.results
      ensures x in st.results
    {
      assert Runs(cfg, sol, x);
    }
  }

  lemma {:induction false} SameKeysSameResults(cfg: Config, sol: Solution, st: State, launched: State)
    requires Agrees(cfg, sol, st) && Agrees(cfg, sol, launched) && launched.results.Keys == st.results.Keys
    ensures launched.results == st.results
  {
  }

  lemma {:induction false} PassStarts(cfg: Config, sol: Solution, st: State, launched: State)
    requires RunsAll(cfg, sol) && Partitioned(sol, st)
    requires LaunchedFrom(cfg, sol, st, ToLaunch(cfg, st), launched)
    ensures |launched.inFlight| == |st.inFlight| + |ToLaunch(cfg, st)|
  {
    var ids := ToLaunch(cfg, st);
    ToLaunchDistinct(cfg, st);
    DistinctSize(ids);
    var started := set x | x in ids;
    forall x | x in started
      ensures x in launched.inFlight && x !in st.inFlight
    {
      assert Runs(cfg, sol, x);
    }
    assert launched.inFlight == st.inFlight + started;
  }

  /** A step that is ready and not launched means the limit is used up. */
  lemma {:induction false} LeftOverMeansFull(cfg: Config, st: State, id: string)
    requires id in st.pending && Ready(cfg, st, id) && id !in ToLaunch(cfg, st)
    requires cfg.concurrency.Some? && cfg.concurrency.value > 0 ==> |st.inFlight| <= cfg.concurrency.value
    ensures cfg.concurrency.Some? && cfg.concurrency.value > 0
    ensures |st.inFlight| + |ToLaunch(cfg, st)| == cfg.concurrency.value
  {
    assert id in ReadyIds(cfg, st, st.pending);
  }

  ghost function UnsettledSinks(cfg: Config, st: State): set<string> {
    set id | id in Leaves(cfg) && (id in st.pending || id in st.inFlight)
  }

  ghost predicate LimitKept(cfg: Config, st: State) {
    cfg.concurrency.Some? && cfg.concurrency.value > 0 ==> |st.inFlight| <= cfg.concurrency.value
  }

  /** Two sinks unsettled, and more steps to come. */
  ghost predicate Open(cfg: Config, sol: Solution, st: State) {
    && Inv(cfg, sol, st) && LimitKept(cfg, st) && st.pending != [] && |UnsettledSinks(cfg, st)| >= 2
  }

  ghost predicate Setting(cfg: Config, sol: Solution, rank: map<string, nat>) {
    Local(cfg) && IsStepRanking(cfg, rank) && Solves(cfg, sol) && RunsAll(cfg, sol) && Concurrent(cfg)
  }

  /** A pass that starts steps and settles none. */
  ghost predicate Started(cfg: Config, sol: Solution, st: State, launched: State) {
    && LaunchAll(cfg, st, ToLaunch(cfg, st)) == Ok(launched)
    && Inv(cfg, sol, launched)
    && launched.results == st.results
    && |launched.inFlight| == |st.inFlight| + |ToLaunch(cfg, st)|
    && forall x :: x in launched.pending <==> x in st.pending && x !in ToLaunch(cfg, st)
  }

  lemma {:induction false} PassFromOpen(cfg: Config, sol: Solution, rank: map<string, nat>, st: State)
    returns (launched: State)
    requires Setting(cfg, sol, rank) && Open(cfg, sol, st)
    ensures Started(cfg, sol, st, launched) && LimitKept(cfg, launched)
    ensures launched.inFlight != {} && !Stuck(cfg, st)
  {
    launched := PassInv(cfg, sol, st);
    PassOnlyStarts(cfg, sol, st, launched);
    OpenLaunchesOrRuns(cfg, sol, rank, st);
    StartsWithinLimit(cfg, st, launched);
  }

  lemma {:induction false} StartsWithinLimit(cfg: Config, st: State, launched: State)
    requires LimitKept(cfg, st) && !Stuck(cfg, st)
    requires |launched.inFlight| == |st.inFlight| + |ToLaunch(cfg, st)|
    ensures LimitKept(cfg, launched) && launched.inFlight != {}
  {
  }

  /** When every step runs, a pass moves steps from pending to in flight and does nothing else. */
  lemma {:induction false} PassOnlyStarts(cfg: Config, sol: Solution, st: State, launched: State)
    requires RunsAll(cfg, sol) && Inv(cfg, sol, st) && Inv(cfg, sol, launched)
    requires LaunchedFrom(cfg, sol, st, ToLaunch(cfg, st), launched)
    ensures launched.results == st.results
    ensures |launched.inFlight| == |st.inFlight| + |ToLaunch(cfg, st)|
  {
    PassSettlesNothing(cfg, sol, st, launched);
    SameKeysSameResults(cfg, sol, st, launched);
    PassStarts(cfg, sol, st, launched);
  }

  lemma {:induction false} OpenLaunchesOrRuns(cfg: Config, sol: Solution, rank: map<string, nat>, st: State)
    requires IsStepRanking(cfg, rank) && Solves(cfg, sol) && Inv(cfg, sol, st) && st.pending != []
    ensures !Stuck(cfg, st)
  {
    if st.inFlight == {} {
      var id := SomeStepIsReady(cfg, sol, rank, st);
      ReadyIsLaunched(cfg, st, id);
    }
  }

  lemma {:induction false} OnlySinksMeansReady(
    cfg: Config, sol: Solution, rank: map<string, nat>, launched: State) returns (id: string)
    requires Solves(cfg, sol) && IsStepRanking(cfg, rank) && Inv(cfg, sol, launched)
    requires launched.pending != [] && launched.inFlight <= Leaves(cfg)
    ensures id in launched.pending && Ready(cfg, launched, id)
  {
    forall x, y | x in launched.pending && y in launched.inFlight
      ensures y !in Deps(cfg, x)
    {
      assert y in Leaves(cfg) && x in sol;
    }
    id := SomeStepIsReady(cfg, sol, rank, launched);
  }

  /** If only sinks are in flight and steps are still pending, the limit is used up. */
  lemma {:induction false} OnlySinksMeansTwo(
    cfg: Config, sol: Solution, rank: map<string, nat>, st: State, launched: State)
    requires Solves(cfg, sol) && IsStepRanking(cfg, rank) && Concurrent(cfg)
    requires Started(cfg, sol, st, launched) && LimitKept(cfg, st)
    requires launched.pending != [] && launched.inFlight <= Leaves(cfg)
    ensures |launched.inFlight| >= 2
  {
    var id := OnlySinksMeansReady(cfg, sol, rank, launched);
    FullMeansTwo(cfg, st, launched, id);
  }

  lemma {:induction false} FullMeansTwo(cfg: Config, st: State, launched: State, id: string)
    requires Concurrent(cfg) && LimitKept(cfg, st) && launched.results == st.results
    requires id in st.pending && id !in ToLaunch(cfg, st) && Ready(cfg, launched, id)
    requires |launched.inFlight| == |st.inFlight| + |ToLaunch(cfg, st)|
    ensures |launched.inFlight| >= 2
  {
    assert Ready(cfg, st, id);
    LeftOverMeansFull(cfg, st, id);
  }

  function OneDone(cfg: Config, id: string): (done: map<string, StepResult>)
    requires id in cfg.byId
    ensures done.Keys == {id} && done[id] == Outcome(cfg, id)
  {
    map[id := Outcome(cfg, id)]
  }

  lemma {:induction false} NextBySettling(cfg: Config, st: State, launched: State, x: string)
    requires st.pending != [] && LaunchAll(cfg, st, ToLaunch(cfg, st)) == Ok(launched) && !Stuck(cfg, st)
    requires x in launched.inFlight && x in cfg.byId
    ensures IsRace(cfg, launched, OneDone(cfg, x))
    ensures Next(cfg, st, Settle(cfg, launched, OneDone(cfg, x)))
  {
    assert x in OneDone(cfg, x);
    assert IsRace(cfg, launched, OneDone(cfg, x));
  }

  lemma {:induction false} SettleOne(cfg: Config, sol: Solution, launched: State, x: string) returns (t: State)
    requires x in cfg.byId && IsRace(cfg, launched, OneDone(cfg, x))
    requires Local(cfg) && Solves(cfg, sol) && Inv(cfg, sol, launched) && LimitKept(cfg, launched)
    ensures t == Settle(cfg, launched, OneDone(cfg, x))
    ensures Inv(cfg, sol, t) && LimitKept(cfg, t)
    ensures t.pending == launched.pending && t.inFlight == launched.inFlight - {x}
    ensures t.results.Keys == launched.results.Keys + {x}
  {
    t := Settle(cfg, launched, OneDone(cfg, x));
    SettleInv(cfg, sol, launched, OneDone(cfg, x));
    SubsetSize(t.inFlight, launched.inFlight);
  }

  lemma {:induction false} TwoMembers(s: set<string>, x: string, y: string)
    requires x in s && y in s && x != y
    ensures |s| >= 2
  {
    SubsetSize({x, y}, s);
  }

  /** The pass moves sinks, it does not settle them. */
  lemma {:induction false} SinksStayUnsettled(cfg: Config, sol: Solution, st: State, launched: State)
    requires sol.Keys == cfg.byId.Keys
    requires Partitioned(sol, st) && Partitioned(sol, launched) && launched.results == st.results
    ensures UnsettledSinks(cfg, launched) == UnsettledSinks(cfg, st)
  {
  }

  ghost predicate IsChain(cfg: Config, run: seq<State>) {
    run != [] && forall i :: 0 <= i < |run| - 1 ==> Next(cfg, run[i], run[i + 1])
  }

  /** The loop has ended with a task in flight. */
  ghost predicate LeavesTask(sol: Solution, st: State) {
    st.pending == [] && st.inFlight != {} && Partitioned(sol, st)
  }

  /** A schedule from one state on, to an end that leaves a task. */
  ghost predicate LeavingChain(cfg: Config, sol: Solution, st: State, run: seq<State>) {
    IsChain(cfg, run) && run[0] == st && LeavesTask(sol, run[|run| - 1])
  }

  lemma {:induction false} ChainOne(cfg: Config, sol: Solution, st: State) returns (run: seq<State>)
    requires LeavesTask(sol, st)
    ensures LeavingChain(cfg, sol, st, run)
  {
    run := [st];
  }

  lemma {:induction false} ChainCons(cfg: Config, sol: Solution, st: State, t: State, rest: seq<State>)
    returns (run: seq<State>)
    requires LeavingChain(cfg, sol, t, rest) && Next(cfg, st, t)
    ensures LeavingChain(cfg, sol, st, run)
  {
    run := [st] + rest;
    forall i | 0 <= i < |run| - 1
      ensures Next(cfg, run[i], run[i + 1])
    {
      if i > 0 {
        assert run[i] == rest[i - 1] && run[i + 1] == rest[i];
      }
    }
  }

  /** A task that is not a sink if there is one. */
  lemma {:induction false} ChooseToSettle(cfg: Config, launched: State) returns (x: string)
    requires launched.inFlight != {}
    ensures x in launched.inFlight
    ensures x in Leaves(cfg) ==> launched.inFlight <= Leaves(cfg)
  {
    if launched.inFlight <= Leaves(cfg) {
      x :| x in launched.inFlight;
    } else {
      x :| x in launched.inFlight && x !in Leaves(cfg);
    }
  }

  lemma {:induction false} LeavesAnother(cfg: Config, launched: State, x: string)
    requires launched.pending == [] && |UnsettledSinks(cfg, launched)| >= 2
    ensures launched.inFlight - {x} != {}
  {
    if launched.inFlight <= {x} {
      SubsetSize(UnsettledSinks(cfg, launched), {x});
    }
  }

  /** Settling a sink leaves one in flight and one pending. */
  lemma {:induction false} SinkSettledStaysOpen(
    cfg: Config, sol: Solution, rank: map<string, nat>, st: State, launched: State, x: string, t: State)
    requires Solves(cfg, sol) && IsStepRanking(cfg, rank) && Concurrent(cfg)
    requires Started(cfg, sol, st, launched) && LimitKept(cfg, st)
    requires launched.pending != [] && x in launched.inFlight && launched.inFlight <= Leaves(cfg)
    requires t.pending == launched.pending && t.inFlight == launched.inFlight - {x}
    ensures |UnsettledSinks(cfg, t)| >= 2
  {
    OnlySinksMeansTwo(cfg, sol, rank, st, launched);
    var sink := PendingSink(cfg, sol, rank, launched);
    if t.inFlight == {} {
      SubsetSize(launched.inFlight, {x});
    }
    var other :| other in t.inFlight;
    TwoMembers(UnsettledSinks(cfg, t), sink, other);
  }

  /** Settling what is not a sink leaves the sinks as they were. */
  lemma {:induction false} OtherSettledStaysOpen(cfg: Config, launched: State, x: string, t: State)
    requires x !in Leaves(cfg) && |UnsettledSinks(cfg, launched)| >= 2
    requires t.pending == launched.pending && t.inFlight == launched.inFlight - {x}
    ensures |UnsettledSinks(cfg, t)| >= 2
  {
    assert UnsettledSinks(cfg, t) == UnsettledSinks(cfg, launched);
  }

  lemma {:induction false} InFlightIsUnsettled(cfg: Config, sol: Solution, st: State, x: string)
    requires Inv(cfg, sol, st) && x in st.inFlight
    ensures x in cfg.byId && x in sol && x !in st.results
  {
  }

  ghost function Unsettled(sol: Solution, st: State): nat {
    |sol.Keys - st.results.Keys|
  }

  lemma {:induction false} UnsettledShrinks(sol: Solution, st: State, t: State, x: string)
    requires x in sol && x !in st.results && t.results.Keys == st.results.Keys + {x}
    ensures Unsettled(sol, t) < Unsettled(sol, st)
  {
    SubsetIsSmaller(sol.Keys - t.results.Keys, sol.Keys - st.results.Keys, x);
  }

  /** One iteration in which the adversary settles one task, a sink only if it must. */
  lemma {:induction false} AdversaryStep(cfg: Config, sol: Solution, rank: map<string, nat>, st: State)
    returns (t: State)
    requires Setting(cfg, sol, rank) && Open(cfg, sol, st)
    ensures Next(cfg, st, t) && Unsettled(sol, t) < Unsettled(sol, st)
    ensures if t.pending == [] then LeavesTask(sol, t) else Open(cfg, sol, t)
  {
    var launched := PassFromOpen(cfg, sol, rank, st);
    SinksStayUnsettled(cfg, sol, st, launched);
    var x := ChooseToSettle(cfg, launched);
    InFlightIsUnsettled(cfg, sol, launched, x);
    NextBySettling(cfg, st, launched, x);
    t := SettleOne(cfg, sol, launched, x);
    UnsettledShrinks(sol, launched, t, x);
    if launched.pending == [] {
      LeavesAnother(cfg, launched, x);
    } else if x in Leaves(cfg) {
      SinkSettledStaysOpen(cfg, sol, rank, st, launched, x, t);
    } else {
      OtherSettledStaysOpen(cfg, launched, x, t);
    }
  }

  /** An adversary keeps two sinks unsettled to the last pass. */
  lemma {:induction false} ScheduleLeavingOne(cfg: Config, sol: Solution, rank: map<string, nat>, st: State)
    returns (run: seq<State>)
    requires Setting(cfg, sol, rank) && Open(cfg, sol, st)
    ensures LeavingChain(cfg, sol, st, run)
    decreases Unsettled(sol, st)
  {
    var t := AdversaryStep(cfg, sol, rank, st);
    var rest: seq<State>;
    if t.pending == [] {
      rest := ChainOne(cfg, sol, t);
    } else {
      rest := ScheduleLeavingOne(cfg, sol, rank, t);
    }
    run := ChainCons(cfg, sol, st, t, rest);
  }

  /** Every schedule, whatever the executors do, ends with a result for every step. */
  ghost predicate AlwaysTotal(cfg: Config) {
    forall attempts: map<string, seq<Attempt>>, run: seq<State> ::
      IsFullRun(cfg.(attempts := attempts), run) ==> run[|run| - 1].results.Keys == cfg.byId.Keys
  }

  lemma {:induction false} LeavesStartUnsettled(cfg: Config, sol: Solution)
    requires sol.Keys == cfg.byId.Keys && Partitioned(sol, Initial(cfg))
    ensures UnsettledSinks(cfg, Initial(cfg)) == Leaves(cfg)
  {
  }

  lemma {:induction false} InitialOpen(cfg: Config, sol: Solution)
    requires Indexed(cfg) && Solves(cfg, sol) && |Sinks(cfg.steps)| >= 2
    ensures Open(cfg, sol, Initial(cfg))
  {
    InitialInv(cfg, sol);
    SinksAreLeaves(cfg);
    LeavesStartUnsettled(cfg, sol);
  }

  lemma {:induction false} SuccessSetting(cfg: Config) returns (sol: Solution, rank: map<string, nat>)
    requires Indexed(cfg) && Unconditional(cfg) && Concurrent(cfg) && cfg.attempts == AlwaysSucceeds(cfg.byId)
    ensures Setting(cfg, sol, rank)
  {
    UnconditionalIsSound(cfg);
    SoundIsLocal(cfg);
    sol := SolutionExists(cfg);
    rank := StepRanking(cfg);
    forall id | id in sol
      ensures Runs(cfg, sol, id)
    {
      SuccessRuns(cfg, sol, rank, id);
    }
  }

  /** With two sinks and room for two steps, some schedule loses a result though every step succeeds. */
  lemma {:induction false} TwoSinksCanLoseOne(cfg: Config) returns (run: seq<State>)
    requires Indexed(cfg) && Unconditional(cfg) && Concurrent(cfg) && |Sinks(cfg.steps)| >= 2
    requires cfg.attempts == AlwaysSucceeds(cfg.byId)
    ensures IsFullRun(cfg, run) && run[|run| - 1].results.Keys != cfg.byId.Keys
  {
    var sol, rank := SuccessSetting(cfg);
    InitialOpen(cfg, sol);
    run := ScheduleLeavingOne(cfg, sol, rank, Initial(cfg));
    var last := run[|run| - 1];
    var x :| x in last.inFlight;
    assert x in sol && x !in last.results;
  }

  /**
   * For unconditional steps every schedule settles every step if and only if the definition has at
   * most one sink or steps run one at a time.
   */
  lemma {:induction false} TotalIffOneSinkOrSerial(cfg: Config)
    requires Indexed(cfg) && Unconditional(cfg)
    ensures AlwaysTotal(cfg) <==> |Sinks(cfg.steps)| <= 1 || cfg.concurrency == Some(1)
  {
    if |Sinks(cfg.steps)| <= 1 || cfg.concurrency == Some(1) {
      forall attempts: map<string, seq<Attempt>>, run: seq<State> | IsFullRun(cfg.(attempts := attempts), run)
        ensures run[|run| - 1].results.Keys == cfg.byId.Keys
      {
        var c := cfg.(attempts := attempts);
        UnconditionalIsSound(c);
        var sol := SolutionExists(c);
        SubsetSize(RunningSinks(c, sol), Sinks(c.steps));
        FullRunSettlesAll(c, sol, run);
      }
    } else {
      var c := cfg.(attempts := AlwaysSucceeds(cfg.byId));
      var run := TwoSinksCanLoseOne(c);
    }
  }
}
