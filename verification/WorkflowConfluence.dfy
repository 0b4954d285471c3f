/** Every schedule of a validated definition computes the one meaning of its dependency graph. */
module WorkflowConfluence {
  import opened Wrappers
  import opened Digraph
  import opened Expressions
  import opened WorkflowSchema
  import opened WorkflowEngine

  /** What a step comes to once it has settled. */
  datatype Settled = Settled(result: StepResult, tainted: bool)

  type Solution = map<string, Settled>

  function ResultsOf(sol: Solution): map<string, StepResult> {
    map id | id in sol :: sol[id].result
  }

  function TaintedOf(sol: Solution): set<string> {
    set id | id in sol && sol[id].tainted
  }

  function VerdictIn(cfg: Config, sol: Solution, id: string): Verdict
    requires id in cfg.byId && DepsSettled(cfg.byId[id], ResultsOf(sol))
  {
    Eligibility(cfg.byId, cfg.vars, ResultsOf(sol), TaintedOf(sol), cfg.byId[id])
  }

  /** What the rule makes of a step, its dependencies being settled as `sol` says. */
  function Rule(cfg: Config, sol: Solution, id: string): Option<Settled>
    requires id in cfg.byId && DepsSettled(cfg.byId[id], ResultsOf(sol))
  {
    match VerdictIn(cfg, sol, id)
    case ThrowsError(_) => None
    case Skip(reason, taints) => Some(Settled(StepResult(Skipped, map[], reason), taints))
    case Run => Some(Settled(Outcome(cfg, id), HardFailure(cfg, id, Outcome(cfg, id))))
  }

  /** The recursive definition over the dependency graph, read as equations: one for each step. */
  ghost predicate Solves(cfg: Config, sol: Solution) {
    sol.Keys == cfg.byId.Keys && forall id :: id in sol ==> SolvesAt(cfg, sol, id)
  }

  /** The equation of one step. */
  ghost predicate SolvesAt(cfg: Config, sol: Solution, id: string)
    requires id in sol
  {
    && id in cfg.byId
    && DepsSettled(cfg.byId[id], ResultsOf(sol))
    && Rule(cfg, sol, id) == Some(sol[id])
  }

  /** A `when` names only transitive dependencies of its step and variables that are set. */
  ghost predicate WhenIsLocal(cfg: Config) {
    forall i :: 0 <= i < |cfg.steps| && cfg.steps[i].when.Some? ==>
      && (forall m :: m in Mentions(cfg.steps[i].when.value) ==> ReachesPlus(StepGraph(cfg.steps), cfg.steps[i].id, m))
      && Variables(cfg.steps[i].when.value) <= cfg.vars.Keys
  }

  /** The index is built from the steps, which passed the schema check. */
  ghost predicate Indexed(cfg: Config) {
    cfg.byId == ById(cfg.steps) && Validated(cfg.steps)
  }

  ghost predicate Sound(cfg: Config) {
    Indexed(cfg) && WhenIsLocal(cfg)
  }

  // ------------------------------------------------------------ graph and ids

  lemma {:induction false} IdsMatch(steps: seq<Step>)
    ensures StepIds(steps) == ById(steps).Keys == set id | id in PendingIds(steps)
  {
    assert forall i :: 0 <= i < |steps| ==> Raw(steps)[i].id == steps[i].id;
    forall id | id in StepIds(steps)
      ensures id in ById(steps) && id in PendingIds(steps)
    {
      var i :| 0 <= i < |steps| && Raw(steps)[i].id == id;
      assert steps[i].id == id;
    }
    forall id | id in ById(steps)
      ensures id in StepIds(steps)
    {
      var i :| 0 <= i < |steps| && steps[i] == ById(steps)[id];
      assert Raw(steps)[i].id == id;
    }
    forall id | id in PendingIds(steps)
      ensures id in StepIds(steps)
    {
      var i :| 0 <= i < |steps| && steps[i].id == id;
      assert Raw(steps)[i].id == id;
    }
  }

  lemma {:induction false} GraphEntry(steps: seq<RawStep>, ids: set<string>, i: nat)
    requires i < |steps| && UniqueIds(steps)
    ensures steps[i].id in DependencyGraph(steps, ids)
    ensures DependencyGraph(steps, ids)[steps[i].id] == Known(steps[i].dependsOn, ids)
  {
    var n := |steps| - 1;
    if i < n {
      GraphEntry(steps[..n], ids, i);
    }
  }

  lemma {:induction false} IndexKeys(cfg: Config)
    requires Indexed(cfg)
    ensures cfg.byId.Keys == StepIds(cfg.steps)
  {
    IdsMatch(cfg.steps);
  }

  /** The edges of a validated definition are its declared dependencies. */
  lemma {:induction false} EdgesAreDependencies(cfg: Config, a: string, b: string)
    requires Indexed(cfg)
    ensures Edge(StepGraph(cfg.steps), a, b) <==> b in Deps(cfg, a)
    ensures b in Deps(cfg, a) ==> a in cfg.byId && b in cfg.byId
  {
    var steps := cfg.steps;
    IdsMatch(steps);
    var raw := Raw(steps);
    if a in cfg.byId {
      var i :| 0 <= i < |steps| && steps[i] == cfg.byId[a];
      GraphEntry(raw, StepIds(steps), i);
      assert raw[i].id == a && raw[i].dependsOn == steps[i].dependsOn;
      if b in steps[i].dependsOn {
        var k :| 0 <= k < |raw[i].dependsOn| && raw[i].dependsOn[k] == b;
      }
    }
  }

  /** A ranking of the steps puts the dependencies of a step below the step. */
  ghost predicate IsStepRanking(cfg: Config, rank: map<string, nat>) {
    rank.Keys == cfg.byId.Keys && forall id, d :: id in cfg.byId && d in Deps(cfg, id) ==> d in rank && rank[d] < rank[id]
  }

  lemma {:induction false} StepRanking(cfg: Config) returns (rank: map<string, nat>)
    requires Indexed(cfg)
    ensures IsStepRanking(cfg, rank)
  {
    var g := StepGraph(cfg.steps);
    forall a, b | Edge(g, a, b)
      ensures a in cfg.byId && b in cfg.byId
    {
      EdgesAreDependencies(cfg, a, b);
    }
    rank := AcyclicHasRanking(g, cfg.byId.Keys);
    forall id, d | id in cfg.byId && d in Deps(cfg, id)
      ensures d in rank && rank[d] < rank[id]
    {
      EdgesAreDependencies(cfg, id, d);
    }
  }

  // --------------------------------------------------------------- the frame

  /** Two views of what has settled that agree on a set of steps. */
  predicate SameOn(
    ids: set<string>, r0: map<string, StepResult>, t0: set<string>, r1: map<string, StepResult>, t1: set<string>)
  {
    forall id :: id in ids ==> id in r0 && id in r1 && r0[id] == r1[id] && (id in t0 <==> id in t1)
  }

  lemma {:induction false} FirstBadFrame(
    byId: map<string, Step>, r0: map<string, StepResult>, r1: map<string, StepResult>, deps: seq<string>)
    requires forall k :: 0 <= k < |deps| ==> deps[k] in r0 && deps[k] in r1 && r0[deps[k]] == r1[deps[k]]
    ensures FirstBad(byId, r0, deps) == FirstBad(byId, r1, deps)
  {
    if deps != [] {
      FirstBadFrame(byId, r0, r1, deps[1..]);
    }
  }

  /** A verdict depends on nothing but what has settled of the dependencies and the steps named by `when`. */
  lemma {:induction false} VerdictFrame(
    byId: map<string, Step>, vars: map<string, Value>, step: Step,
    r0: map<string, StepResult>, t0: set<string>, r1: map<string, StepResult>, t1: set<string>)
    requires SameOn((set d | d in step.dependsOn), r0, t0, r1, t1)
    requires step.when.Some? ==> SameOn(Mentions(step.when.value), r0, t0, r1, t1)
    ensures DepsSettled(step, r0) && DepsSettled(step, r1)
    ensures Eligibility(byId, vars, r0, t0, step) == Eligibility(byId, vars, r1, t1, step)
  {
    forall k | 0 <= k < |step.dependsOn|
      ensures step.dependsOn[k] in r0 && step.dependsOn[k] in r1
      ensures r0[step.dependsOn[k]] == r1[step.dependsOn[k]]
      ensures step.dependsOn[k] in t0 <==> step.dependsOn[k] in t1
    {
      assert step.dependsOn[k] in set d | d in step.dependsOn;
    }
    if step.when.Some? {
      EvaluateReadsMentioned(step.when.value, Context(r0, vars), Context(r1, vars));
    } else {
      FirstBadFrame(byId, r0, r1, step.dependsOn);
    }
  }

  /** Steps whose dependencies are in the set along with them. */
  predicate DependencyClosed(cfg: Config, s: set<string>) {
    forall id :: id in s ==> id in cfg.byId && Deps(cfg, id) <= s
  }

  /** A set closed under dependencies that holds a step's dependencies holds what its `when` names. */
  ghost predicate Local(cfg: Config) {
    forall s: set<string>, id: string ::
      DependencyClosed(cfg, s) && id in cfg.byId && Deps(cfg, id) <= s && cfg.byId[id].when.Some? ==>
      Mentions(cfg.byId[id].when.value) <= s && Variables(cfg.byId[id].when.value) <= cfg.vars.Keys
  }

  lemma {:induction false} SoundIsLocal(cfg: Config)
    requires Sound(cfg)
    ensures Local(cfg)
  {
    forall s: set<string>, id: string |
      DependencyClosed(cfg, s) && id in cfg.byId && Deps(cfg, id) <= s && cfg.byId[id].when.Some?
      ensures Mentions(cfg.byId[id].when.value) <= s && Variables(cfg.byId[id].when.value) <= cfg.vars.Keys
    {
      ClosedSetHoldsMentions(cfg, s, id);
    }
  }

  /** A dependency-closed set that holds a step's dependencies holds every step its `when` names. */
  lemma {:induction false} ClosedSetHoldsMentions(cfg: Config, s: set<string>, id: string)
    requires Sound(cfg) && DependencyClosed(cfg, s) && id in cfg.byId
    requires Deps(cfg, id) <= s
    requires cfg.byId[id].when.Some?
    ensures Mentions(cfg.byId[id].when.value) <= s && Variables(cfg.byId[id].when.value) <= cfg.vars.Keys
  {
    var g := StepGraph(cfg.steps);
    forall a, b | a in s && Edge(g, a, b)
      ensures b in s
    {
      EdgesAreDependencies(cfg, a, b);
    }
    var i :| 0 <= i < |cfg.steps| && cfg.steps[i] == cfg.byId[id];
    forall m | m in Mentions(cfg.byId[id].when.value)
      ensures m in s
    {
      assert ReachesPlus(g, id, m);
      var c :| Edge(g, id, c) && Reaches(g, c, m);
      EdgesAreDependencies(cfg, id, c);
      ClosedSetContainsReachable(g, s, c, m);
    }
  }

  /** Two views that agree on a closed set holding a step's dependencies give it the same verdict. */
  lemma {:induction false} VerdictOnClosedSet(
    cfg: Config, s: set<string>, id: string,
    r0: map<string, StepResult>, t0: set<string>, r1: map<string, StepResult>, t1: set<string>)
    requires Local(cfg) && DependencyClosed(cfg, s) && id in cfg.byId
    requires Deps(cfg, id) <= s
    requires SameOn(s, r0, t0, r1, t1)
    ensures DepsSettled(cfg.byId[id], r0) && DepsSettled(cfg.byId[id], r1)
    ensures Eligibility(cfg.byId, cfg.vars, r0, t0, cfg.byId[id]) ==
            Eligibility(cfg.byId, cfg.vars, r1, t1, cfg.byId[id])
    ensures !Eligibility(cfg.byId, cfg.vars, r0, t0, cfg.byId[id]).ThrowsError?
  {
    var step := cfg.byId[id];
    VerdictFrame(cfg.byId, cfg.vars, step, r0, t0, r1, t1);
    if step.when.Some? {
      EvaluateThrowsOnlyOnAbsent(step.when.value, Context(r0, cfg.vars));
    }
  }

  // ------------------------------------------- the meaning exists and is unique

  ghost function RankedBelow(cfg: Config, rank: map<string, nat>, k: nat): set<string> {
    set id | id in cfg.byId && id in rank && rank[id] < k
  }

  /** Adds the steps of one rank to the meaning of all lower ranks. */
  ghost function Extended(cfg: Config, rank: map<string, nat>, k: nat, below: Solution): (sol: Solution)
    ensures sol.Keys == RankedBelow(cfg, rank, k)
  {
    map id | id in RankedBelow(cfg, rank, k) ::
      if id in below then below[id]
      else if DepsSettled(cfg.byId[id], ResultsOf(below)) && Rule(cfg, below, id).Some?
      then Rule(cfg, below, id).value
      else Settled(StepResult(Failed, map[], NoReason), false)
  }

  ghost predicate SolvesBelow(cfg: Config, sol: Solution) {
    DependencyClosed(cfg, sol.Keys) && forall id :: id in sol ==> SolvesAt(cfg, sol, id)
  }

  /** Extending a closed partial solution does not disturb what it says. */
  lemma {:induction false} RuleOnExtension(cfg: Config, small: Solution, big: Solution, id: string)
    requires Local(cfg) && DependencyClosed(cfg, small.Keys) && id in cfg.byId
    requires Deps(cfg, id) <= small.Keys
    requires forall x :: x in small ==> x in big && big[x] == small[x]
    ensures DepsSettled(cfg.byId[id], ResultsOf(small)) && DepsSettled(cfg.byId[id], ResultsOf(big))
    ensures Rule(cfg, small, id) == Rule(cfg, big, id) && Rule(cfg, small, id).Some?
  {
    VerdictOnClosedSet(cfg, small.Keys, id, ResultsOf(small), TaintedOf(small), ResultsOf(big), TaintedOf(big));
  }

  lemma {:induction false} ExtendedSolvesAt(cfg: Config, rank: map<string, nat>, k: nat, below: Solution, id: string)
    requires Local(cfg) && IsStepRanking(cfg, rank) && k > 0
    requires below.Keys == RankedBelow(cfg, rank, k - 1) && SolvesBelow(cfg, below)
    requires id in RankedBelow(cfg, rank, k)
    ensures Deps(cfg, id) <= below.Keys && SolvesAt(cfg, Extended(cfg, rank, k, below), id)
  {
    var sol := Extended(cfg, rank, k, below);
    assert forall d :: d in Deps(cfg, id) ==> d in below;
    RuleOnExtension(cfg, below, sol, id);
    if id in below {
      assert SolvesAt(cfg, below, id);
    }
  }

  lemma {:induction false} ExtendedSolves(cfg: Config, rank: map<string, nat>, k: nat, below: Solution)
    requires Local(cfg) && IsStepRanking(cfg, rank) && k > 0
    requires below.Keys == RankedBelow(cfg, rank, k - 1) && SolvesBelow(cfg, below)
    ensures SolvesBelow(cfg, Extended(cfg, rank, k, below))
  {
    var sol := Extended(cfg, rank, k, below);
    forall id | id in sol
      ensures id in cfg.byId && Deps(cfg, id) <= sol.Keys && SolvesAt(cfg, sol, id)
    {
      ExtendedSolvesAt(cfg, rank, k, below, id);
    }
  }

  lemma {:induction false} SolutionBelow(cfg: Config, rank: map<string, nat>, k: nat) returns (sol: Solution)
    requires Local(cfg) && IsStepRanking(cfg, rank)
    ensures sol.Keys == RankedBelow(cfg, rank, k) && SolvesBelow(cfg, sol)
  {
    if k == 0 {
      sol := map[];
    } else {
      var below := SolutionBelow(cfg, rank, k - 1);
      ExtendedSolves(cfg, rank, k, below);
      sol := Extended(cfg, rank, k, below);
    }
  }

  /** The recursive definition over the dependency graph has a meaning. */
  lemma {:induction false} SolutionExists(cfg: Config) returns (sol: Solution)
    requires Sound(cfg)
    ensures Solves(cfg, sol)
  {
    SoundIsLocal(cfg);
    var rank := StepRanking(cfg);
    var top := RankBound(rank);
    sol := SolutionBelow(cfg, rank, top);
    assert sol.Keys == cfg.byId.Keys;
  }

  lemma {:induction false} RankBound(rank: map<string, nat>) returns (top: nat)
    ensures forall id :: id in rank ==> rank[id] < top
    decreases |rank|
  {
    top := 0;
    if id :| id in rank {
      var rest := rank - {id};
      assert rest.Keys == rank.Keys - {id};
      assert |rest.Keys| < |rank.Keys|;
      var below := RankBound(rest);
      top := if rank[id] < below then below else rank[id] + 1;
      forall x | x in rank
        ensures rank[x] < top
      {
        assert x == id || (x in rest && rest[x] == rank[x]);
      }
    }
  }

  /** It has only one. */
  lemma {:induction false} SolutionIsUnique(cfg: Config, a: Solution, b: Solution)
    requires Sound(cfg) && Solves(cfg, a) && Solves(cfg, b)
    ensures a == b
  {
    SoundIsLocal(cfg);
    var rank := StepRanking(cfg);
    forall id | id in a
      ensures a[id] == b[id]
    {
      UniqueAt(cfg, a, b, rank, id);
    }
  }

  /** The steps ranked below a given one form a closed set on which the solutions agree by induction. */
  lemma {:induction false} UniqueAt(cfg: Config, a: Solution, b: Solution, rank: map<string, nat>, id: string)
    requires Local(cfg) && Solves(cfg, a) && Solves(cfg, b) && id in a
    requires IsStepRanking(cfg, rank)
    ensures a[id] == b[id]
    decreases rank[id]
  {
    var s := set x | x in a && rank[x] < rank[id];
    assert DependencyClosed(cfg, s) && Deps(cfg, id) <= s by {
      assert forall x, d :: x in a && d in Deps(cfg, x) ==> d in a;
    }
    forall x | x in s
      ensures a[x] == b[x]
    {
      UniqueAt(cfg, a, b, rank, x);
    }
    VerdictOnClosedSet(cfg, s, id, ResultsOf(a), TaintedOf(a), ResultsOf(b), TaintedOf(b));
    assert SolvesAt(cfg, a, id) && SolvesAt(cfg, b, id);
  }
}
