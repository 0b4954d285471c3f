/** Taint is reachability of a hard failure through default-rule skips, and decides the status. */
module WorkflowTaint {
  import opened Wrappers
  import opened Digraph
  import opened Expressions
  import opened WorkflowSchema
  import opened WorkflowEngine
  import opened WorkflowConfluence
  import opened WorkflowSchedules

  ghost predicate HardFailed(cfg: Config, sol: Solution, id: string) {
    id in sol && HardFailure(cfg, id, sol[id].result)
  }

  /** Skipped by the rule about dependencies, not by its own `when`. */
  ghost predicate DefaultSkip(cfg: Config, sol: Solution, id: string) {
    id in sol && id in cfg.byId && cfg.byId[id].when.None? && sol[id].result.status == Skipped
  }

  /** A chain of default-rule skips, each on account of a dependency, back to a hard failure. */
  ghost predicate IsTaintChain(cfg: Config, sol: Solution, p: seq<string>) {
    && p != []
    && HardFailed(cfg, sol, p[|p| - 1])
    && forall i :: 0 <= i < |p| - 1 ==> DefaultSkip(cfg, sol, p[i]) && p[i + 1] in Deps(cfg, p[i])
  }

  /** A dependency that is tainted keeps its dependents from proceeding. */
  lemma {:induction false} TaintedDoesNotProceed(cfg: Config, sol: Solution, dep: string)
    requires Solves(cfg, sol) && dep in sol && sol[dep].tainted
    ensures dep in ResultsOf(sol) && !Proceeds(cfg.byId, ResultsOf(sol), dep)
  {
    TaintedMeansFailedOrSkipped(cfg, sol, dep);
  }

  /** Without a `when`, one tainted dependency is enough to be skipped and tainted. */
  lemma {:induction false} TaintSpreads(cfg: Config, sol: Solution, id: string, dep: string)
    requires Solves(cfg, sol) && id in sol && id in cfg.byId && cfg.byId[id].when.None?
    requires dep in Deps(cfg, id) && dep in sol && sol[dep].tainted
    ensures sol[id].tainted && DefaultSkip(cfg, sol, id)
  {
    TaintedDoesNotProceed(cfg, sol, dep);
    var deps := cfg.byId[id].dependsOn;
    var k :| 0 <= k < |deps| && deps[k] == dep;
    assert CausesTaint(cfg.byId, ResultsOf(sol), TaintedOf(sol), deps);
    assert SolvesAt(cfg, sol, id);
  }

  lemma {:induction false} HardFailedIsTainted(cfg: Config, sol: Solution, id: string)
    requires Solves(cfg, sol) && HardFailed(cfg, sol, id)
    ensures sol[id].tainted
  {
    assert SolvesAt(cfg, sol, id);
  }

  lemma {:induction false} ChainTaints(cfg: Config, sol: Solution, p: seq<string>)
    requires Solves(cfg, sol) && IsTaintChain(cfg, sol, p)
    ensures p[0] in sol && sol[p[0]].tainted
    decreases |p|
  {
    if |p| == 1 {
      HardFailedIsTainted(cfg, sol, p[0]);
    } else {
      assert DefaultSkip(cfg, sol, p[0]);
      ChainTaints(cfg, sol, p[1..]);
      TaintSpreads(cfg, sol, p[0], p[1]);
    }
  }

  /** Taint is put on a skipped step only on account of a failed or tainted dependency. */
  lemma {:induction false} SkipTaintHasCause(cfg: Config, sol: Solution, id: string)
    requires Solves(cfg, sol) && id in sol && sol[id].tainted && !Runs(cfg, sol, id)
    ensures DefaultSkip(cfg, sol, id)
    ensures CausesTaint(cfg.byId, ResultsOf(sol), TaintedOf(sol), cfg.byId[id].dependsOn)
  {
    assert SolvesAt(cfg, sol, id);
  }

  lemma {:induction false} RunTaintIsHardFailure(cfg: Config, sol: Solution, id: string)
    requires Solves(cfg, sol) && id in sol && sol[id].tainted && Runs(cfg, sol, id)
    ensures HardFailed(cfg, sol, id)
  {
    assert SolvesAt(cfg, sol, id);
  }

  /** A tainted step failed hard, or was skipped on account of a tainted dependency. */
  lemma {:induction false} TaintHasCause(cfg: Config, sol: Solution, id: string) returns (dep: Option<string>)
    requires Solves(cfg, sol) && id in sol && sol[id].tainted
    ensures dep.None? ==> HardFailed(cfg, sol, id)
    ensures dep.Some? ==> DefaultSkip(cfg, sol, id) && dep.value in Deps(cfg, id)
    ensures dep.Some? ==> dep.value in sol && sol[dep.value].tainted
  {
    if Runs(cfg, sol, id) {
      RunTaintIsHardFailure(cfg, sol, id);
      dep := None;
    } else {
      SkipTaintHasCause(cfg, sol, id);
      var deps, results := cfg.byId[id].dependsOn, ResultsOf(sol);
      var k :|
        && 0 <= k < |deps|
        && !Proceeds(cfg.byId, results, deps[k])
        && (results[deps[k]].status == Failed || deps[k] in TaintedOf(sol));
      dep := Some(deps[k]);
      if results[deps[k]].status == Failed {
        assert deps[k] in sol;
        HardFailedIsTainted(cfg, sol, deps[k]);
      }
    }
  }

  lemma {:induction false} ChainCons(cfg: Config, sol: Solution, id: string, rest: seq<string>)
    requires IsTaintChain(cfg, sol, rest) && DefaultSkip(cfg, sol, id) && rest[0] in Deps(cfg, id)
    ensures IsTaintChain(cfg, sol, [id] + rest)
  {
    var p := [id] + rest;
    forall i | 0 <= i < |p| - 1
      ensures DefaultSkip(cfg, sol, p[i]) && p[i + 1] in Deps(cfg, p[i])
    {
      if i > 0 {
        assert p[i] == rest[i - 1] && p[i + 1] == rest[i];
      }
    }
  }

  lemma {:induction false} TaintHasChain(cfg: Config, sol: Solution, rank: map<string, nat>, id: string)
    returns (p: seq<string>)
    requires Solves(cfg, sol) && id in sol && sol[id].tainted
    requires IsStepRanking(cfg, rank)
    ensures IsTaintChain(cfg, sol, p) && p[0] == id
    decreases rank[id]
  {
    var dep := TaintHasCause(cfg, sol, id);
    if dep.None? {
      p := [id];
    } else {
      var rest := TaintHasChain(cfg, sol, rank, dep.value);
      ChainCons(cfg, sol, id, rest);
      p := [id] + rest;
    }
  }

  /** Taint is exactly hard-failure reachability. */
  lemma {:induction false} TaintedIffChain(cfg: Config, sol: Solution, id: string)
    requires Sound(cfg) && Solves(cfg, sol) && id in sol
    ensures sol[id].tainted <==> exists p :: IsTaintChain(cfg, sol, p) && p[0] == id
  {
    if sol[id].tainted {
      var rank := StepRanking(cfg);
      var p := TaintHasChain(cfg, sol, rank, id);
    }
    forall p | IsTaintChain(cfg, sol, p) && p[0] == id
      ensures sol[id].tainted
    {
      ChainTaints(cfg, sol, p);
    }
  }

  /** What any schedule records as tainted is so by a chain of recorded results. */
  lemma {:induction false} RecordedTaintIffChain(cfg: Config, sol: Solution, run: seq<State>, id: string)
    requires Sound(cfg) && Solves(cfg, sol) && IsRun(cfg, run) && id in run[|run| - 1].results
    ensures id in run[|run| - 1].tainted <==> exists p :: IsTaintChain(cfg, sol, p) && p[0] == id
  {
    EveryScheduleAgrees(cfg, sol, run);
    TaintedIffChain(cfg, sol, id);
  }

  /** A workflow in which nothing fails hard succeeds, whatever its `when`s skip. */
  lemma {:induction false} NoHardFailureMeansSuccess(cfg: Config, sol: Solution, run: seq<State>)
    requires Sound(cfg) && Solves(cfg, sol) && IsFullRun(cfg, run) && Serial(cfg, sol)
    requires forall id :: id in sol ==> !HardFailed(cfg, sol, id)
    ensures ComputeStatus(cfg, run[|run| - 1]) == WorkflowSucceeded
  {
    FullRunStatus(cfg, sol, run);
    forall id | id in Sinks(cfg.steps) && id in sol
      ensures !sol[id].tainted
    {
      TaintedIffChain(cfg, sol, id);
    }
  }

  /** Taint climbs through dependents that have no `when` until it meets a sink. */
  lemma {:induction false} TaintClimbsToSink(
    cfg: Config, sol: Solution, rank: map<string, nat>, top: nat, failed: string, id: string) returns (sink: string)
    requires Indexed(cfg) && Solves(cfg, sol) && id in sol && sol[id].tainted
    requires IsStepRanking(cfg, rank)
    requires forall x :: x in rank ==> rank[x] < top
    requires Reaches(StepGraph(cfg.steps), id, failed)
    requires forall x :: x in sol && x in cfg.byId && ReachesPlus(StepGraph(cfg.steps), x, failed) ==>
      cfg.byId[x].when.None?
    ensures sink in Sinks(cfg.steps) && sink in sol && sol[sink].tainted
    decreases top - rank[id]
  {
    IdsMatch(cfg.steps);
    if IsSink(cfg.steps, id) {
      sink := id;
    } else {
      var i :| 0 <= i < |cfg.steps| && id in cfg.steps[i].dependsOn;
      var up := cfg.steps[i].id;
      ByIdOfUnique(cfg.steps, i);
      EdgesAreDependencies(cfg, up, id);
      assert ReachesPlus(StepGraph(cfg.steps), up, failed);
      PlusIsReaches(StepGraph(cfg.steps), up, failed);
      TaintSpreads(cfg, sol, up, id);
      sink := TaintClimbsToSink(cfg, sol, rank, top, failed, up);
    }
  }

  /** A hard failure that no transitive dependent guards with a `when` fails the workflow. */
  lemma {:induction false} UnguardedHardFailureMeansFailure(cfg: Config, sol: Solution, run: seq<State>, failed: string)
    requires Sound(cfg) && Solves(cfg, sol) && IsFullRun(cfg, run) && Serial(cfg, sol)
    requires HardFailed(cfg, sol, failed)
    requires forall x :: x in sol && x in cfg.byId && ReachesPlus(StepGraph(cfg.steps), x, failed) ==>
      cfg.byId[x].when.None?
    ensures ComputeStatus(cfg, run[|run| - 1]) == WorkflowFailed
  {
    FullRunStatus(cfg, sol, run);
    HardFailedIsTainted(cfg, sol, failed);
    ReachesSelf(StepGraph(cfg.steps), failed);
    var rank := StepRanking(cfg);
    var top := RankBound(rank);
    var sink := TaintClimbsToSink(cfg, sol, rank, top, failed, failed);
  }
}
