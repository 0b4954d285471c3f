/** What the results of a workflow mean: who runs, who is skipped and why, and how attempts and limits count. */
module WorkflowMeaning {
  import opened Wrappers
  import opened Digraph
  import opened Expressions
  import opened WorkflowSchema
  import opened WorkflowEngine
  import opened WorkflowConfluence
  import opened WorkflowSchedules

  // ------------------------------------------------------------- who is skipped

  /** The `when` of a step, evaluated over what has settled. */
  function WhenValue(cfg: Config, results: map<string, StepResult>, id: string): Result<Value, EvaluationError>
    requires id in cfg.byId && cfg.byId[id].when.Some?
  {
    Evaluate(cfg.byId[id].when.value, Context(results, cfg.vars))
  }

  /** A dependency that succeeded, or failed and may. */
  predicate Satisfied(cfg: Config, results: map<string, StepResult>, dep: string) {
    dep in results && dep in cfg.byId &&
    (results[dep].status == Succeeded || (results[dep].status == Failed && cfg.byId[dep].continueOnFailure))
  }

  /** A step with a `when` is skipped exactly if that is not truthy, for that reason and without taint. */
  lemma {:induction false} WhenDecides(cfg: Config, sol: Solution, id: string)
    requires Sound(cfg) && Solves(cfg, sol) && id in sol && id in cfg.byId && cfg.byId[id].when.Some?
    ensures WhenValue(cfg, ResultsOf(sol), id).Ok?
    ensures sol[id].result.status == Skipped <==> !Truthy(WhenValue(cfg, ResultsOf(sol), id).value)
    ensures sol[id].result.status == Skipped ==> sol[id] == Settled(StepResult(Skipped, map[], WhenFalse), false)
  {
    assert SolvesAt(cfg, sol, id);
    RetriesStopAtFirstSuccess(AttemptsOf(cfg, id), cfg.byId[id].maxAttempts);
  }

  lemma {:induction false} DependenciesAreKnown(cfg: Config, sol: Solution, id: string)
    requires Indexed(cfg) && Solves(cfg, sol) && id in sol && id in cfg.byId
    ensures forall d :: d in cfg.byId[id].dependsOn ==> d in cfg.byId && d in sol
  {
    forall d | d in cfg.byId[id].dependsOn
      ensures d in cfg.byId
    {
      EdgesAreDependencies(cfg, id, d);
    }
  }

  /** The first dependency that does not let the step proceed. */
  predicate IsFirstBad(byId: map<string, Step>, results: map<string, StepResult>, deps: seq<string>, k: nat)
    requires forall i :: 0 <= i < |deps| ==> deps[i] in results
  {
    k < |deps| && !Proceeds(byId, results, deps[k]) && forall j :: 0 <= j < k ==> Proceeds(byId, results, deps[j])
  }

  lemma {:induction false} FirstBadIsFirst(byId: map<string, Step>, results: map<string, StepResult>, deps: seq<string>)
    returns (k: nat)
    requires forall i :: 0 <= i < |deps| ==> deps[i] in results
    ensures FirstBad(byId, results, deps).Some? ==>
      IsFirstBad(byId, results, deps, k) && FirstBad(byId, results, deps) == Some(deps[k])
  {
    k := 0;
    if deps != [] && Proceeds(byId, results, deps[0]) && FirstBad(byId, results, deps).Some? {
      var rest := FirstBadIsFirst(byId, results, deps[1..]);
      k := rest + 1;
      assert forall j :: 1 <= j < k ==> deps[j] == deps[1..][j - 1];
    }
  }

  /** The step was skipped on account of this dependency, the first that is not satisfied. */
  ghost predicate SkippedFor(cfg: Config, sol: Solution, id: string, k: nat)
    requires id in cfg.byId && id in sol
  {
    var deps := cfg.byId[id].dependsOn;
    && k < |deps| && deps[k] in sol && !Satisfied(cfg, ResultsOf(sol), deps[k])
    && (forall j :: 0 <= j < k ==> Satisfied(cfg, ResultsOf(sol), deps[j]))
    && sol[id].result == StepResult(Skipped, map[], DependencyNotSucceeded(deps[k], sol[deps[k]].result.status))
  }

  /**
   * A step without a `when` is skipped exactly if some dependency neither succeeded nor failed
   * forgivably; the reason names the first such dependency in declaration order, and its status.
   */
  lemma {:induction false} DependenciesDecide(cfg: Config, sol: Solution, id: string)
    requires Sound(cfg) && Solves(cfg, sol) && id in sol && id in cfg.byId && cfg.byId[id].when.None?
    ensures sol[id].result.status == Skipped <==>
      exists d :: d in cfg.byId[id].dependsOn && !Satisfied(cfg, ResultsOf(sol), d)
    ensures sol[id].result.status == Skipped ==> exists k :: SkippedFor(cfg, sol, id, k)
  {
    var deps, results := cfg.byId[id].dependsOn, ResultsOf(sol);
    RuleWithoutWhen(cfg, sol, id);
    SatisfiedProceed(cfg, sol, id);
    var k := FirstBadIsFirst(cfg.byId, results, deps);
    if FirstBad(cfg.byId, results, deps).Some? {
      assert deps[k] in deps && SkippedFor(cfg, sol, id, k);
    }
  }

  lemma {:induction false} SatisfiedProceed(cfg: Config, sol: Solution, id: string)
    requires Indexed(cfg) && Solves(cfg, sol) && id in sol && id in cfg.byId
    ensures forall d :: d in cfg.byId[id].dependsOn ==> d in sol
    ensures forall d :: d in cfg.byId[id].dependsOn ==>
      (Satisfied(cfg, ResultsOf(sol), d) <==> Proceeds(cfg.byId, ResultsOf(sol), d))
  {
    DependenciesAreKnown(cfg, sol, id);
  }

  /** The rule for steps without a `when`, in terms of the first bad dependency. */
  lemma {:induction false} RuleWithoutWhen(cfg: Config, sol: Solution, id: string)
    requires Solves(cfg, sol) && id in sol && id in cfg.byId && cfg.byId[id].when.None?
    ensures DepsSettled(cfg.byId[id], ResultsOf(sol))
    ensures var bad := FirstBad(cfg.byId, ResultsOf(sol), cfg.byId[id].dependsOn);
      && (sol[id].result.status == Skipped <==> bad.Some?)
      && (bad.Some? ==> bad.value in sol)
      && (bad.Some? ==>
            sol[id].result == StepResult(Skipped, map[], DependencyNotSucceeded(bad.value, sol[bad.value].result.status)))
  {
    assert SolvesAt(cfg, sol, id);
    RetriesStopAtFirstSuccess(AttemptsOf(cfg, id), cfg.byId[id].maxAttempts);
  }

  /** Who is not skipped has run: it succeeded exactly if some attempt it has did, and else it failed. */
  lemma {:induction false} RunsByAttempts(cfg: Config, sol: Solution, id: string)
    requires Solves(cfg, sol) && id in sol && id in cfg.byId && sol[id].result.status != Skipped
    ensures sol[id].result.status == Succeeded <==>
      exists k :: 1 <= k <= cfg.byId[id].maxAttempts && At(AttemptsOf(cfg, id), k).Succeeds?
    ensures sol[id].tainted <==> sol[id].result.status == Failed && !cfg.byId[id].continueOnFailure
  {
    assert SolvesAt(cfg, sol, id);
    RetriesStopAtFirstSuccess(AttemptsOf(cfg, id), cfg.byId[id].maxAttempts);
  }

  /** All this holds of what any schedule records, over what it has recorded. */
  lemma {:induction false} RecordedWhenDecides(cfg: Config, run: seq<State>, id: string)
    requires Sound(cfg) && IsRun(cfg, run) && id in run[|run| - 1].results
    requires id in cfg.byId && cfg.byId[id].when.Some?
    ensures var st := run[|run| - 1];
      && WhenValue(cfg, st.results, id).Ok?
      && (st.results[id].status == Skipped <==> !Truthy(WhenValue(cfg, st.results, id).value))
      && (st.results[id].status == Skipped ==>
            st.results[id] == StepResult(Skipped, map[], WhenFalse) && id !in st.tainted)
  {
    var sol := SolutionExists(cfg);
    var st := run[|run| - 1];
    RunInv(cfg, sol, run);
    SoundIsLocal(cfg);
    WhenDecides(cfg, sol, id);
    assert Mentions(cfg.byId[id].when.value) <= st.results.Keys;
    EvaluateReadsMentioned(cfg.byId[id].when.value, Context(st.results, cfg.vars), Context(ResultsOf(sol), cfg.vars));
  }

  lemma {:induction false} RecordedDependenciesDecide(cfg: Config, run: seq<State>, id: string)
    requires Sound(cfg) && IsRun(cfg, run) && id in run[|run| - 1].results
    requires id in cfg.byId && cfg.byId[id].when.None?
    ensures var st := run[|run| - 1];
      st.results[id].status == Skipped <==>
        exists d :: d in cfg.byId[id].dependsOn && !Satisfied(cfg, st.results, d)
  {
    var sol := SolutionExists(cfg);
    var st := run[|run| - 1];
    RunInv(cfg, sol, run);
    DependenciesDecide(cfg, sol, id);
    assert Deps(cfg, id) <= st.results.Keys;
    forall d | d in cfg.byId[id].dependsOn
      ensures Satisfied(cfg, st.results, d) <==> Satisfied(cfg, ResultsOf(sol), d)
    {
      assert d in Deps(cfg, id);
    }
  }

  /** Any run so far would count as a success exactly if every sink has a result and no taint. */
  lemma {:induction false} StatusOfAnyRun(cfg: Config, sol: Solution, run: seq<State>)
    requires Sound(cfg) && Solves(cfg, sol) && IsRun(cfg, run)
    ensures var st := run[|run| - 1];
      ComputeStatus(cfg, st) == WorkflowSucceeded <==>
        forall id :: id in Sinks(cfg.steps) ==> id in st.results && id !in st.tainted
  {
    var st := run[|run| - 1];
    RunInv(cfg, sol, run);
    IndexKeys(cfg);
    StatusBySinks(cfg, st);
    forall id | id in Sinks(cfg.steps)
      ensures id in cfg.byId && (EndedWell(cfg.byId[id], st) <==> id in st.results && id !in st.tainted)
    {
      if id in st.results {
        RunsOrSkipped(cfg, sol, id);
      }
    }
  }

  lemma {:induction false} RunsOrSkipped(cfg: Config, sol: Solution, id: string)
    requires Solves(cfg, sol) && id in sol && id in cfg.byId
    ensures sol[id].result.status != Skipped ==>
      (sol[id].tainted <==> sol[id].result.status == Failed && !cfg.byId[id].continueOnFailure)
  {
    if sol[id].result.status != Skipped {
      RunsByAttempts(cfg, sol, id);
    }
  }

  // -------------------------------------------------------------------- attempts

  /** If no attempt returns, or none is allowed, there are no outputs. */
  lemma {:induction false} NothingReturnedNoOutputs(attempts: seq<Attempt>, max: nat)
    requires forall j :: 1 <= j <= max ==> At(attempts, j).Throws?
    ensures AfterAttempts(attempts, max).Trying? && AfterAttempts(attempts, max).lastOutputs == map[]
    ensures max == 0 ==> Concluded(AfterAttempts(attempts, max)) == StepResult(Failed, map[], NoReason)
  {
    if max > 0 {
      NothingReturnedNoOutputs(attempts, max - 1);
    }
  }

  /** A result depends on no attempt after the first successful one, or after the last allowed. */
  lemma {:induction false} LaterAttemptsDoNotCount(a: seq<Attempt>, b: seq<Attempt>, max: nat)
    requires forall j :: 1 <= j <= max ==> At(a, j) == At(b, j)
    ensures AfterAttempts(a, max) == AfterAttempts(b, max)
  {
    if max > 0 {
      LaterAttemptsDoNotCount(a, b, max - 1);
    }
  }

  // ----------------------------------------------------------------------- order

  /** Steps are looked at in the order of their declaration. */
  lemma {:induction false} PendingInOrder(steps: seq<Step>)
    requires UniqueIds(Raw(steps))
    ensures |PendingIds(steps)| == |steps|
    ensures forall i :: 0 <= i < |steps| ==> PendingIds(steps)[i] == steps[i].id
  {
    if steps != [] {
      var n := |steps| - 1;
      assert Raw(steps[..n]) == Raw(steps)[..n];
      PendingInOrder(steps[..n]);
      assert forall i :: 0 <= i < |steps| ==> Raw(steps)[i].id == steps[i].id;
      assert forall i :: 0 <= i < n ==> steps[..n][i].id != steps[n].id;
    }
  }

  lemma {:induction false} ReadyInOrder(cfg: Config, st: State, ids: seq<string>, m: nat, i: nat, j: nat)
    requires Distinct(ids) && m <= |ReadyIds(cfg, st, ids)| && i < j < |ids|
    requires Ready(cfg, st, ids[i]) && ids[j] in ReadyIds(cfg, st, ids)[..m]
    ensures ids[i] in ReadyIds(cfg, st, ids)[..m]
  {
    var ready := ReadyIds(cfg, st, ids);
    if i == 0 {
      assert ready[0] == ids[0] && ready[..m][0] == ids[0];
    } else if Ready(cfg, st, ids[0]) {
      var rest := ReadyIds(cfg, st, ids[1..]);
      assert ready == [ids[0]] + rest && m >= 1;
      assert ready[..m] == [ids[0]] + rest[..m - 1];
      assert ids[j] != ids[0] && ids[1..][j - 1] == ids[j] && ids[1..][i - 1] == ids[i];
      ReadyInOrder(cfg, st, ids[1..], m - 1, i - 1, j - 1);
    } else {
      assert ids[1..][j - 1] == ids[j] && ids[1..][i - 1] == ids[i];
      ReadyInOrder(cfg, st, ids[1..], m, i - 1, j - 1);
    }
  }

  /**
   * A pass launches ready steps only, earlier declared ones first. Without a positive limit it
   * launches all of them, and with one as many as there is room for besides what is in flight.
   */
  lemma {:induction false} PassFillsTheRoom(cfg: Config, st: State)
    requires Distinct(st.pending)
    ensures var launched := ToLaunch(cfg, st);
      && (forall i, j :: 0 <= i < j < |st.pending| && Ready(cfg, st, st.pending[i]) && st.pending[j] in launched ==>
            st.pending[i] in launched)
      && (cfg.concurrency.None? || cfg.concurrency.value < 1 ==>
            forall id :: id in st.pending && Ready(cfg, st, id) ==> id in launched)
      && (cfg.concurrency.Some? && cfg.concurrency.value >= 1 ==>
            var room := cfg.concurrency.value - |st.inFlight|;
            && (room <= 0 ==> launched == [])
            && (room > 0 ==> |launched| <= room)
            && (|launched| < room ==> forall id :: id in st.pending && Ready(cfg, st, id) ==> id in launched))
  {
    var ready, launched := ReadyIds(cfg, st, st.pending), ToLaunch(cfg, st);
    assert ready[..|ready|] == ready;
    assert launched == ready[..|launched|];
    forall i, j | 0 <= i < j < |st.pending| && Ready(cfg, st, st.pending[i]) && st.pending[j] in launched
      ensures st.pending[i] in launched
    {
      ReadyInOrder(cfg, st, st.pending, |launched|, i, j);
    }
  }
}
