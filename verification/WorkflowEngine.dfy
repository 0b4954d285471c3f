/**
 * The step scheduler as a transition system. One iteration of the loop of `WorkflowEngine.execute`
 * launches ready steps and, if any task is then in flight, awaits a race that settles some of them.
 */
module WorkflowEngine {
  import opened Wrappers
  import opened Digraph
  import opened Expressions
  import opened WorkflowSchema

  datatype Step = Step(
    id: string,
    dependsOn: seq<string>,
    when: Option<Expr>,
    continueOnFailure: bool,
    maxAttempts: nat)

  /** What one call of a step's executor does. */
  datatype Attempt =
    | Succeeds(outputs: map<string, Value>)
    | Fails(outputs: map<string, Value>, error: Reason)
    | Throws(message: string)

  /**
   * A definition with the index of its steps by id, its variables and concurrency limit, and what
   * each attempt of each step does; an attempt past the end of its list throws.
   */
  datatype Config = Config(
    steps: seq<Step>,
    byId: map<string, Step>,
    vars: map<string, Value>,
    concurrency: Option<int>,
    attempts: map<string, seq<Attempt>>)

  function Raw(steps: seq<Step>): seq<RawStep> {
    seq(|steps|, i requires 0 <= i < |steps| => RawStep(steps[i].id, steps[i].dependsOn))
  }

  /** What the schema check establishes of a parsed definition. */
  ghost predicate Validated(steps: seq<Step>) {
    WellFormed(Raw(steps))
  }

  function StepIds(steps: seq<Step>): set<string> {
    Ids(Raw(steps))
  }

  function StepGraph(steps: seq<Step>): Graph {
    DependencyGraph(Raw(steps), StepIds(steps))
  }

  /** Of two steps with one id the later one is found. */
  function ById(steps: seq<Step>): (m: map<string, Step>)
    ensures forall id :: id in m ==> m[id].id == id && m[id] in steps
    ensures forall i :: 0 <= i < |steps| ==> steps[i].id in m
  {
    if steps == [] then map[]
    else
      var n := |steps| - 1;
      ById(steps[..n])[steps[n].id := steps[n]]
  }

  /** The ids in declaration order, each once. */
  function PendingIds(steps: seq<Step>): (ids: seq<string>)
    ensures forall id :: id in ids <==> exists i :: 0 <= i < |steps| && steps[i].id == id
    ensures forall i, j :: 0 <= i < j < |ids| ==> ids[i] != ids[j]
  {
    if steps == [] then []
    else
      var n := |steps| - 1;
      var ids := PendingIds(steps[..n]);
      if steps[n].id in ids then ids else ids + [steps[n].id]
  }

  // ------------------------------------------------------------------ retries

  datatype Progress =
    | Finished(result: StepResult)
    | Trying(lastOutputs: map<string, Value>, lastError: Reason)

  /** The attempts are numbered from 1. */
  function At(attempts: seq<Attempt>, k: int): Attempt {
    if 1 <= k <= |attempts| then attempts[k - 1] else Throws("")
  }

  /** Where the retry loop stands after its first `k` attempts. */
  function AfterAttempts(attempts: seq<Attempt>, k: nat): Progress {
    if k == 0 then Trying(map[], NoReason)
    else
      match AfterAttempts(attempts, k - 1)
      case Finished(r) => Finished(r)
      case Trying(outputs, error) =>
        match At(attempts, k)
        case Succeeds(o) => Finished(StepResult(Succeeded, o, NoReason))
        case Fails(o, e) => Trying(o, e)
        case Throws(m) => Trying(outputs, Thrown(m))
  }

  function Concluded(p: Progress): StepResult {
    match p
    case Finished(r) => r
    case Trying(outputs, error) => StepResult(Failed, outputs, error)
  }

  function AttemptsOf(cfg: Config, id: string): seq<Attempt> {
    if id in cfg.attempts then cfg.attempts[id] else []
  }

  /** The result of running a step, undisturbed by cancellation. */
  function Outcome(cfg: Config, id: string): StepResult
    requires id in cfg.byId
  {
    Concluded(AfterAttempts(AttemptsOf(cfg, id), cfg.byId[id].maxAttempts))
  }

  /** The first successful attempt decides; without one, the last attempt's error is reported. */
  lemma {:induction false} RetriesStopAtFirstSuccess(attempts: seq<Attempt>, max: nat)
    ensures var r := Concluded(AfterAttempts(attempts, max));
      && (r.status == Succeeded <==> exists k :: 1 <= k <= max && At(attempts, k).Succeeds?)
      && (r.status == Succeeded ==> exists k ::
            && 1 <= k <= max
            && At(attempts, k) == Succeeds(r.outputs)
            && forall j :: 1 <= j < k ==> !At(attempts, j).Succeeds?)
      && (r.status != Succeeded ==> r.status == Failed && AfterAttempts(attempts, max).Trying?)
      && (r.status != Succeeded && max > 0 ==>
            match At(attempts, max)
            case Throws(m) => r.error == Thrown(m)
            case Fails(o, e) => r.error == e && r.outputs == o
            case Succeeds(_) => false)
  {
    if max > 0 {
      RetriesStopAtFirstSuccess(attempts, max - 1);
    }
  }

  /** After failures only, the outputs are those of the last attempt that returned at all. */
  lemma {:induction false} RetriesKeepLastReturnedOutputs(attempts: seq<Attempt>, max: nat, k: nat)
    requires 1 <= k <= max && At(attempts, k).Fails?
    requires forall j :: k < j <= max ==> At(attempts, j).Throws?
    requires forall j :: 1 <= j < k ==> !At(attempts, j).Succeeds?
    ensures AfterAttempts(attempts, max).Trying?
    ensures AfterAttempts(attempts, max).lastOutputs == At(attempts, k).outputs
    decreases max - k
  {
    if max == k {
      RetriesStopAtFirstSuccess(attempts, k - 1);
    } else {
      RetriesKeepLastReturnedOutputs(attempts, max - 1, k);
    }
  }

  // -------------------------------------------------------------- eligibility

  function Deps(cfg: Config, id: string): set<string> {
    if id in cfg.byId then set d | d in cfg.byId[id].dependsOn else {}
  }

  datatype Verdict =
    | Run
    | Skip(reason: Reason, taints: bool)
    | ThrowsError(error: EvaluationError)

  predicate DepsSettled(step: Step, results: map<string, StepResult>) {
    forall k :: 0 <= k < |step.dependsOn| ==> step.dependsOn[k] in results
  }

  /** A dependency that lets its dependents proceed: it succeeded, or its failure is forgiven. */
  predicate Proceeds(byId: map<string, Step>, results: map<string, StepResult>, dep: string)
    requires dep in results
  {
    || results[dep].status == Succeeded
    || (results[dep].status == Failed && dep in byId && byId[dep].continueOnFailure)
  }

  function FirstBad(byId: map<string, Step>, results: map<string, StepResult>, deps: seq<string>): (r: Option<string>)
    requires forall k :: 0 <= k < |deps| ==> deps[k] in results
    ensures r.Some? ==> r.value in deps && !Proceeds(byId, results, r.value)
    ensures r.None? <==> forall k :: 0 <= k < |deps| ==> Proceeds(byId, results, deps[k])
  {
    if deps == [] then None
    else if !Proceeds(byId, results, deps[0]) then Some(deps[0])
    else FirstBad(byId, results, deps[1..])
  }

  predicate CausesTaint(
    byId: map<string, Step>, results: map<string, StepResult>, tainted: set<string>, deps: seq<string>)
    requires forall k :: 0 <= k < |deps| ==> deps[k] in results
  {
    exists k ::
      && 0 <= k < |deps|
      && !Proceeds(byId, results, deps[k])
      && (results[deps[k]].status == Failed || deps[k] in tainted)
  }

  /** A `when` is the entire rule; otherwise every dependency must let the step proceed. */
  function Eligibility(
    byId: map<string, Step>, vars: map<string, Value>,
    results: map<string, StepResult>, tainted: set<string>, step: Step): Verdict
    requires DepsSettled(step, results)
  {
    if step.when.Some? then
      match Evaluate(step.when.value, Context(results, vars))
      case Err(e) => ThrowsError(e)
      case Ok(v) => if Truthy(v) then Run else Skip(WhenFalse, false)
    else
      match FirstBad(byId, results, step.dependsOn)
      case None => Run
      case Some(dep) =>
        Skip(DependencyNotSucceeded(dep, results[dep].status),
             CausesTaint(byId, results, tainted, step.dependsOn))
  }

  // ------------------------------------------------------- the loop's iteration

  datatype State = State(
    results: map<string, StepResult>,
    pending: seq<string>,
    inFlight: set<string>,
    tainted: set<string>)

  function Initial(cfg: Config): State {
    State(map[], PendingIds(cfg.steps), {}, {})
  }

  predicate Ready(cfg: Config, st: State, id: string) {
    id in cfg.byId && DepsSettled(cfg.byId[id], st.results)
  }

  function ReadyIds(cfg: Config, st: State, ids: seq<string>): (r: seq<string>)
    ensures forall id :: id in r <==> id in ids && Ready(cfg, st, id)
  {
    if ids == [] then []
    else if Ready(cfg, st, ids[0]) then [ids[0]] + ReadyIds(cfg, st, ids[1..])
    else ReadyIds(cfg, st, ids[1..])
  }

  /** How many more steps may start; no positive limit means no limit. */
  function Capacity(cfg: Config, running: nat, wanted: nat): nat {
    if cfg.concurrency.None? || cfg.concurrency.value <= 0 then wanted
    else if cfg.concurrency.value <= running then 0
    else cfg.concurrency.value - running
  }

  function ToLaunch(cfg: Config, st: State): (ids: seq<string>)
    ensures forall id :: id in ids ==> id in st.pending && Ready(cfg, st, id)
  {
    var ready := ReadyIds(cfg, st, st.pending);
    var room := Capacity(cfg, |st.inFlight|, |ready|);
    if room < |ready| then ready[..room] else ready
  }

  function Without(ids: seq<string>, id: string): (r: seq<string>)
    ensures forall x :: x in r <==> x in ids && x != id
    ensures id in ids ==> |r| < |ids|
    ensures id !in ids ==> r == ids
  {
    if ids == [] then []
    else if ids[0] == id then Without(ids[1..], id)
    else [ids[0]] + Without(ids[1..], id)
  }

  function Launch(cfg: Config, st: State, id: string): (r: Result<State, EvaluationError>)
    requires Ready(cfg, st, id)
    ensures r.Ok? ==> forall x :: x in st.results ==> x in r.value.results
  {
    var step := cfg.byId[id];
    var rest := Without(st.pending, id);
    match Eligibility(cfg.byId, cfg.vars, st.results, st.tainted, step)
    case ThrowsError(e) => Err(e)
    case Run => Ok(st.(pending := rest, inFlight := st.inFlight + {id}))
    case Skip(reason, taints) =>
      Ok(st.(pending := rest,
             results := st.results[id := StepResult(Skipped, map[], reason)],
             tainted := if taints then st.tainted + {id} else st.tainted))
  }

  /** The launches of one pass, in order; the first `when` that throws ends the run. */
  function LaunchAll(cfg: Config, st: State, ids: seq<string>): Result<State, EvaluationError>
    requires forall k :: 0 <= k < |ids| ==> Ready(cfg, st, ids[k])
    decreases |ids|
  {
    if ids == [] then Ok(st)
    else
      var next :- Launch(cfg, st, ids[0]);
      assert forall k :: 0 <= k < |ids| && Ready(cfg, st, ids[k]) ==> Ready(cfg, next, ids[k]);
      LaunchAll(cfg, next, ids[1..])
  }

  /** No step can be launched and none is running. */
  predicate Stuck(cfg: Config, st: State) {
    ToLaunch(cfg, st) == [] && st.inFlight == {}
  }

  predicate HardFailure(cfg: Config, id: string, r: StepResult) {
    r.status == Failed && id in cfg.byId && !cfg.byId[id].continueOnFailure
  }

  /** What recording the results of settled tasks does. */
  function Settle(cfg: Config, st: State, done: map<string, StepResult>): State {
    st.(results := st.results + done,
        inFlight := st.inFlight - done.Keys,
        tainted := st.tainted + set id | id in done && HardFailure(cfg, id, done[id]))
  }

  /** A race settles at least one task in flight, each with its own outcome. */
  predicate IsRace(cfg: Config, st: State, done: map<string, StepResult>) {
    && done.Keys != {}
    && done.Keys <= st.inFlight
    && forall id :: id in done ==> id in cfg.byId && done[id] == Outcome(cfg, id)
  }

  /** One iteration that is not cancelled, does not throw and is not stuck. */
  ghost predicate Next(cfg: Config, s: State, t: State) {
    && s.pending != []
    && !Stuck(cfg, s)
    && var launched := LaunchAll(cfg, s, ToLaunch(cfg, s));
    && launched.Ok?
    && if launched.value.inFlight == {} then t == launched.value
       else exists done :: IsRace(cfg, launched.value, done) && t == Settle(cfg, launched.value, done)
  }

  ghost predicate IsRun(cfg: Config, run: seq<State>) {
    && run != []
    && run[0] == Initial(cfg)
    && forall i :: 0 <= i < |run| - 1 ==> Next(cfg, run[i], run[i + 1])
  }

  /** A run up to where the loop guard fails. */
  ghost predicate IsFullRun(cfg: Config, run: seq<State>) {
    IsRun(cfg, run) && run[|run| - 1].pending == []
  }

  datatype Status = WorkflowSucceeded | WorkflowFailed

  predicate IsSink(steps: seq<Step>, id: string) {
    id in StepIds(steps) && forall i :: 0 <= i < |steps| ==> id !in steps[i].dependsOn
  }

  function Sinks(steps: seq<Step>): set<string> {
    set id | id in StepIds(steps) && IsSink(steps, id)
  }

  /** A step that ended without failing the workflow. */
  predicate EndedWell(step: Step, st: State) {
    && step.id in st.results
    && !(st.results[step.id].status == Failed && !step.continueOnFailure)
    && !(st.results[step.id].status == Skipped && step.id in st.tainted)
  }

  /** A terminal step without a result, hard-failed, or skipped with taint fails the workflow. */
  function ComputeStatus(cfg: Config, st: State): Status {
    if forall i :: 0 <= i < |cfg.steps| && IsSink(cfg.steps, cfg.steps[i].id) ==> EndedWell(cfg.steps[i], st)
    then WorkflowSucceeded
    else WorkflowFailed
  }
}
