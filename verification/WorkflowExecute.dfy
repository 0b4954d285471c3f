/** The loops of the step engine, proved to take only the iterations of the transition system. */
module WorkflowExecute {
  import opened Wrappers
  import opened Digraph
  import opened Expressions
  import opened WorkflowSchema
  import opened WorkflowEngine
  import opened WorkflowConfluence
  import opened WorkflowSchedules

  function AttemptsMade(max: nat, abortAfter: Option<nat>): nat {
    if abortAfter.None? || max == 0 || max <= abortAfter.value then max
    else if abortAfter.value == 0 then 1
    else abortAfter.value
  }

  /** The retry loop. An abort is noticed after an attempt, so the first one is always made. */
  method RunStep(cfg: Config, id: string, abortAfter: Option<nat>) returns (result: StepResult)
    requires id in cfg.byId
    ensures result == Concluded(AfterAttempts(AttemptsOf(cfg, id), AttemptsMade(cfg.byId[id].maxAttempts, abortAfter)))
    ensures abortAfter.None? ==> result == Outcome(cfg, id)
    ensures abortAfter.Some? && 1 <= abortAfter.value <= cfg.byId[id].maxAttempts ==>
      result == Concluded(AfterAttempts(AttemptsOf(cfg, id), abortAfter.value))
    ensures abortAfter == Some(0) && cfg.byId[id].maxAttempts >= 1 ==>
      result == Concluded(AfterAttempts(AttemptsOf(cfg, id), 1))
  {
    var maxAttempts := cfg.byId[id].maxAttempts;
    var lastError := NoReason;
    var lastOutputs: map<string, Value> := map[];
    ghost var made := AttemptsMade(maxAttempts, abortAfter);
    var attempt := 1;
    while attempt <= maxAttempts
      invariant 1 <= attempt <= maxAttempts + 1 && (maxAttempts > 0 ==> attempt <= made)
      invariant AfterAttempts(AttemptsOf(cfg, id), attempt - 1) == Trying(lastOutputs, lastError)
    {
      match At(AttemptsOf(cfg, id), attempt) {
        case Succeeds(outputs) =>
          result := StepResult(Succeeded, outputs, NoReason);
          FinishedStaysFinished(AttemptsOf(cfg, id), attempt, made);
          return;
        case Fails(outputs, error) =>
          lastError, lastOutputs := error, outputs;
        case Throws(message) =>
          lastError := Thrown(message);
      }
      if attempt == maxAttempts || (abortAfter.Some? && abortAfter.value <= attempt) {
        break;
      }
      attempt := attempt + 1;
    }
    result := StepResult(Failed, lastOutputs, lastError);
  }

  lemma {:induction false} FinishedStaysFinished(attempts: seq<Attempt>, j: nat, k: nat)
    requires j <= k && AfterAttempts(attempts, j).Finished?
    ensures AfterAttempts(attempts, k) == AfterAttempts(attempts, j)
    decreases k
  {
    if j < k {
      FinishedStaysFinished(attempts, j, k - 1);
    }
  }

  lemma {:induction false} FirstBadFound(
    byId: map<string, Step>, results: map<string, StepResult>, deps: seq<string>, i: nat)
    requires forall k :: 0 <= k < |deps| ==> deps[k] in results
    requires i < |deps| && !Proceeds(byId, results, deps[i])
    requires forall k :: 0 <= k < i ==> Proceeds(byId, results, deps[k])
    ensures FirstBad(byId, results, deps) == Some(deps[i])
    decreases i
  {
    if i > 0 {
      FirstBadFound(byId, results, deps[1..], i - 1);
    }
  }

  /** The eligibility check with its loop over the dependencies. */
  method IsEligible(cfg: Config, results: map<string, StepResult>, tainted: set<string>, step: Step)
    returns (verdict: Verdict)
    requires DepsSettled(step, results)
    ensures verdict == Eligibility(cfg.byId, cfg.vars, results, tainted, step)
  {
    if step.when.Some? {
      match Evaluate(step.when.value, Context(results, cfg.vars)) {
        case Err(error) => return ThrowsError(error);
        case Ok(value) => return if Truthy(value) then Run else Skip(WhenFalse, false);
      }
    }
    var causesTaint := false;
    var firstBad: Option<nat> := None;
    for i := 0 to |step.dependsOn|
      invariant firstBad.None? ==> forall k :: 0 <= k < i ==> Proceeds(cfg.byId, results, step.dependsOn[k])
      invariant firstBad.Some? ==>
        && firstBad.value < i && !Proceeds(cfg.byId, results, step.dependsOn[firstBad.value])
        && forall k :: 0 <= k < firstBad.value ==> Proceeds(cfg.byId, results, step.dependsOn[k])
      invariant causesTaint <==> exists k ::
        && 0 <= k < i
        && !Proceeds(cfg.byId, results, step.dependsOn[k])
        && (results[step.dependsOn[k]].status == Failed || step.dependsOn[k] in tainted)
    {
      var dep := step.dependsOn[i];
      if !Proceeds(cfg.byId, results, dep) {
        if firstBad.None? {
          firstBad := Some(i);
        }
        if results[dep].status == Failed || dep in tainted {
          causesTaint := true;
        }
      }
    }
    if firstBad.Some? {
      FirstBadFound(cfg.byId, results, step.dependsOn, firstBad.value);
      var dep := step.dependsOn[firstBad.value];
      return Skip(DependencyNotSucceeded(dep, results[dep].status), causesTaint);
    }
    return Run;
  }

  ghost function Outcomes(cfg: Config, done: set<string>): (m: map<string, StepResult>)
    requires done <= cfg.byId.Keys
    ensures m.Keys == done && forall id :: id in done ==> m[id] == Outcome(cfg, id)
  {
    map id | id in done :: Outcome(cfg, id)
  }

  /** The completion handler of one task. */
  function Record(cfg: Config, st: State, id: string, result: StepResult): State {
    st.(results := st.results[id := result],
        inFlight := st.inFlight - {id},
        tainted := if HardFailure(cfg, id, result) then st.tainted + {id} else st.tainted)
  }

  /** Some tasks have been recorded, whatever their results. */
  ghost predicate Recorded(st: State, part: set<string>, next: State) {
    && next.pending == st.pending
    && next.inFlight == st.inFlight - part
    && next.results.Keys == st.results.Keys + part
    && (forall id :: id in st.results && id !in part ==> next.results[id] == st.results[id])
    && (forall id :: id in part ==> next.results[id].status != Skipped)
  }

  lemma {:induction false} RecordedOneMore(
    cfg: Config, st: State, part: set<string>, next: State, id: string, result: StepResult)
    requires Recorded(st, part, next) && result.status != Skipped
    ensures Recorded(st, part + {id}, Record(cfg, next, id, result))
  {
  }

  method RunTask(cfg: Config, id: string, aborted: bool) returns (result: StepResult)
    requires id in cfg.byId
    ensures result.status != Skipped
    ensures !aborted ==> result == Outcome(cfg, id)
  {
    var abortAfter: Option<nat> := None;
    if aborted {
      abortAfter := PickAbort();
    }
    result := RunStep(cfg, id, abortAfter);
    RanIsNotSkipped(cfg, id, AttemptsMade(cfg.byId[id].maxAttempts, abortAfter));
  }

  lemma {:induction false} NothingSettled(cfg: Config, st: State)
    ensures Settle(cfg, st, Outcomes(cfg, {})) == st && Recorded(st, {}, st)
  {
    assert Outcomes(cfg, {}) == map[];
  }

  /** Some tasks have been recorded, and unless one was aborted each with its own outcome. */
  ghost predicate Settling(cfg: Config, st: State, part: set<string>, aborted: bool, next: State) {
    && part <= cfg.byId.Keys
    && Recorded(st, part, next)
    && (!aborted ==> next == Settle(cfg, st, Outcomes(cfg, part)))
  }

  lemma {:induction false} SettlingOneMore(
    cfg: Config, st: State, part: set<string>, aborted: bool, next: State, id: string, result: StepResult)
    requires Settling(cfg, st, part, aborted, next) && id in cfg.byId && id !in part
    requires result.status != Skipped && (!aborted ==> result == Outcome(cfg, id))
    ensures Settling(cfg, st, part + {id}, aborted, Record(cfg, next, id, result))
  {
    RecordedOneMore(cfg, st, part, next, id, result);
    if !aborted {
      OneMoreSettled(cfg, st, part, id);
    }
  }

  /** The completion handlers of the tasks that settle, in any order; an abort may cut retries short. */
  method SettleTasks(cfg: Config, st: State, done: set<string>, aborted: bool) returns (next: State)
    requires done <= st.inFlight && done <= cfg.byId.Keys
    ensures Settling(cfg, st, done, aborted, next)
  {
    next := st;
    var left := done;
    ghost var part := {};
    NothingSettled(cfg, st);
    while left != {}
      invariant left + part == done && left !! part
      invariant Settling(cfg, st, part, aborted, next)
      decreases left
    {
      var id :| id in left;
      var result := RunTask(cfg, id, aborted);
      SettlingOneMore(cfg, st, part, aborted, next, id, result);
      next := Record(cfg, next, id, result);
      left := left - {id};
      part := part + {id};
    }
    assert part == done;
  }

  lemma {:induction false} RanIsNotSkipped(cfg: Config, id: string, made: nat)
    ensures Concluded(AfterAttempts(AttemptsOf(cfg, id), made)).status != Skipped
  {
    RetriesStopAtFirstSuccess(AttemptsOf(cfg, id), made);
  }

  method PickAbort() returns (abortAfter: Option<nat>)
  {
    var k: nat := *;
    if * {
      abortAfter := Some(k);
    } else {
      abortAfter := None;
    }
  }

  lemma {:induction false} OneMoreSettled(cfg: Config, st: State, done: set<string>, id: string)
    requires done <= cfg.byId.Keys && id in cfg.byId && id !in done
    ensures Settle(cfg, st, Outcomes(cfg, done + {id})) ==
            Record(cfg, Settle(cfg, st, Outcomes(cfg, done)), id, Outcome(cfg, id))
  {
    var m0, m1 := Outcomes(cfg, done), Outcomes(cfg, done + {id});
    assert st.results + m1 == (st.results + m0)[id := Outcome(cfg, id)];
    assert (set x | x in m1 && HardFailure(cfg, x, m1[x])) ==
      (set x | x in m0 && HardFailure(cfg, x, m0[x])) +
      (if HardFailure(cfg, id, Outcome(cfg, id)) then {id} else {});
  }

  /** The launches of one pass. */
  method LaunchReady(cfg: Config, st: State, toLaunch: seq<string>) returns (r: Result<State, EvaluationError>)
    requires forall k :: 0 <= k < |toLaunch| ==> Ready(cfg, st, toLaunch[k])
    ensures r == LaunchAll(cfg, st, toLaunch)
  {
    var next := st;
    for i := 0 to |toLaunch|
      invariant forall k :: i <= k < |toLaunch| ==> Ready(cfg, next, toLaunch[k])
      invariant LaunchAll(cfg, next, toLaunch[i..]) == LaunchAll(cfg, st, toLaunch)
    {
      var id := toLaunch[i];
      var step := cfg.byId[id];
      ghost var before := next;
      var verdict := IsEligible(cfg, next.results, next.tainted, step);
      next := next.(pending := Without(next.pending, id));
      match verdict {
        case ThrowsError(error) =>
          return Err(error);
        case Skip(reason, taints) =>
          next := next.(results := next.results[id := StepResult(Skipped, map[], reason)],
                        tainted := if taints then next.tainted + {id} else next.tainted);
        case Run =>
          next := next.(inFlight := next.inFlight + {id});
      }
      assert Launch(cfg, before, id) == Ok(next);
      assert toLaunch[i..][1..] == toLaunch[i + 1..];
    }
    assert toLaunch[|toLaunch|..] == [];
    return Ok(next);
  }

  /** Every declared step is somewhere. */
  ghost predicate Covered(cfg: Config, st: State) {
    forall id :: id in cfg.byId <==> id in st.pending || id in st.inFlight || id in st.results
  }

  lemma {:induction false} LaunchAllCovered(cfg: Config, st: State, ids: seq<string>)
    requires Covered(cfg, st) && forall k :: 0 <= k < |ids| ==> Ready(cfg, st, ids[k])
    ensures LaunchAll(cfg, st, ids).Ok? ==> var next := LaunchAll(cfg, st, ids).value;
      && Covered(cfg, next)
      && |next.pending| <= |st.pending|
      && (ids != [] && ids[0] in st.pending ==> |next.pending| < |st.pending|)
      && (ids == [] ==> next == st)
      && forall x :: x in st.results && x !in ids ==> x in next.results && next.results[x] == st.results[x]
    decreases |ids|
  {
    if ids != [] {
      var launched := Launch(cfg, st, ids[0]);
      if launched.Ok? {
        assert forall k :: 0 <= k < |ids| && Ready(cfg, st, ids[k]) ==> Ready(cfg, launched.value, ids[k]);
        LaunchAllCovered(cfg, launched.value, ids[1..]);
        assert forall x :: x in ids <==> x == ids[0] || x in ids[1..];
      }
    }
  }

  datatype WorkflowResult =
    | Ended(status: Status, results: map<string, StepResult>)
    | Cancelled(results: map<string, StepResult>)
    | Rejected(error: EvaluationError)

  /** The stuck branch gives every pending step up. */
  function GiveUp(st: State): State {
    State(st.results + (map id | id in st.pending :: StepResult(Skipped, map[], UnresolvedGraph)),
          [], st.inFlight, st.tainted + set id | id in st.pending)
  }

  /** A result that was not cancelled is that of a full run, or of one that got stuck. */
  ghost predicate FinishedBy(cfg: Config, run: seq<State>, status: Status, results: map<string, StepResult>) {
    && IsRun(cfg, run)
    && var last := run[|run| - 1];
    && (last.pending == [] || Stuck(cfg, last))
    && var end := if last.pending == [] then last else GiveUp(last);
    && results == end.results
    && status == ComputeStatus(cfg, end)
  }

  /** The state in which a cancel found the loop, after the launches of its last pass if it made one. */
  ghost predicate IsCutPoint(cfg: Config, run: seq<State>, st: State) {
    && IsRun(cfg, run)
    && (st == run[|run| - 1] || LaunchAll(cfg, run[|run| - 1], ToLaunch(cfg, run[|run| - 1])) == Ok(st))
  }

  /** What becomes of that state: what is settled stays, what is in flight is awaited. */
  ghost predicate CutFrom(origin: State, st: State) {
    && st.pending == origin.pending
    && st.inFlight <= origin.inFlight
    && st.results.Keys == origin.results.Keys + (origin.inFlight - st.inFlight)
    && (forall id :: id in origin.results && id !in origin.inFlight ==> st.results[id] == origin.results[id])
    && (forall id :: id in origin.inFlight - st.inFlight ==> st.results[id].status != Skipped)
  }

  /** After a cancel a step has its meaning, or ran though interrupted, or never started. */
  ghost predicate CancelledAs(cfg: Config, sol: Solution, id: string, result: StepResult) {
    && id in sol
    && (|| result == sol[id].result
        || result == StepResult(Skipped, map[], WorkflowCancelled)
        || (Runs(cfg, sol, id) && result.status != Skipped))
  }

  ghost predicate CancelledWith(cfg: Config, origin: State, results: map<string, StepResult>) {
    && results.Keys == cfg.byId.Keys
    && (forall id :: id in origin.results && id !in origin.inFlight && id in results ==> results[id] == origin.results[id])
    && (forall id :: id in origin.inFlight && id in results ==> results[id].status != Skipped)
    && (forall id :: id in results && id !in origin.results && id !in origin.inFlight ==>
          results[id] == StepResult(Skipped, map[], WorkflowCancelled))
  }

  lemma {:induction false} CancelledMeaning(
    cfg: Config, sol: Solution, run: seq<State>, origin: State, results: map<string, StepResult>)
    requires Sound(cfg) && Solves(cfg, sol) && IsCutPoint(cfg, run, origin) && CancelledWith(cfg, origin, results)
    ensures forall id :: id in results ==> CancelledAs(cfg, sol, id, results[id])
  {
    RunInv(cfg, sol, run);
    SoundIsLocal(cfg);
    var launched := PassInv(cfg, sol, run[|run| - 1]);
    assert Inv(cfg, sol, origin);
    forall id | id in results
      ensures CancelledAs(cfg, sol, id, results[id])
    {
    }
  }

  lemma {:induction false} RejectionIsUnsound(cfg: Config, run: seq<State>)
    requires IsRun(cfg, run) && LaunchAll(cfg, run[|run| - 1], ToLaunch(cfg, run[|run| - 1])).Err?
    ensures !Sound(cfg)
  {
    if Sound(cfg) {
      var sol := SolutionExists(cfg);
      RunInv(cfg, sol, run);
      SoundIsLocal(cfg);
      var _ := PassInv(cfg, sol, run[|run| - 1]);
    }
  }

  lemma {:induction false} RunExtends(cfg: Config, run: seq<State>, next: State)
    requires IsRun(cfg, run) && Next(cfg, run[|run| - 1], next)
    ensures IsRun(cfg, run + [next])
  {
    var longer := run + [next];
    forall i | 0 <= i < |longer| - 1
      ensures Next(cfg, longer[i], longer[i + 1])
    {
      if i < |run| - 1 {
        assert longer[i] == run[i] && longer[i + 1] == run[i + 1];
      }
    }
  }

  /** Of a validated definition, every result that was not cancelled is what the graph means. */
  lemma {:induction false} FinishedMeaning(
    cfg: Config, sol: Solution, run: seq<State>, status: Status, results: map<string, StepResult>)
    requires Sound(cfg) && Solves(cfg, sol) && FinishedBy(cfg, run, status, results)
    ensures forall id :: id in results ==> id in sol && results[id] == sol[id].result
    ensures Serial(cfg, sol) ==> results == ResultsOf(sol) && (status == WorkflowSucceeded <==> MeansSuccess(cfg, sol))
  {
    if run[|run| - 1].pending != [] {
      NeverStuck(cfg, run);
    }
    EveryScheduleAgrees(cfg, sol, run);
    if Serial(cfg, sol) {
      FullRunSettlesAll(cfg, sol, run);
      FullRunStatus(cfg, sol, run);
    }
  }

  lemma {:induction false} InitialCovered(cfg: Config)
    requires cfg.byId == ById(cfg.steps)
    ensures Covered(cfg, Initial(cfg))
  {
    IdsMatch(cfg.steps);
  }

  /** One pass and the race after it; nothing is known of the race once the abort is seen. */
  method Iterate(cfg: Config, st: State) returns (r: Result<(State, bool), EvaluationError>, ghost launched: State)
    requires st.pending != [] && !Stuck(cfg, st) && Covered(cfg, st)
    ensures r.Err? ==> LaunchAll(cfg, st, ToLaunch(cfg, st)) == Err(r.error)
    ensures r.Ok? ==> LaunchAll(cfg, st, ToLaunch(cfg, st)) == Ok(launched)
    ensures r.Ok? && !r.value.1 ==> Next(cfg, st, r.value.0)
    ensures r.Ok? && r.value.1 ==> CutFrom(launched, r.value.0) && launched.inFlight != {}
    ensures r.Ok? ==> Covered(cfg, r.value.0) && Covered(cfg, launched)
    ensures r.Ok? ==>
      || |r.value.0.pending| < |st.pending|
      || (r.value.0.pending == st.pending && (r.value.1 || r.value.0.inFlight < st.inFlight))
  {
    var toLaunch := ToLaunch(cfg, st);
    var pass := LaunchReady(cfg, st, toLaunch);
    LaunchAllCovered(cfg, st, toLaunch);
    launched := st;
    if pass.Err? {
      return Err(pass.error), launched;
    }
    launched := pass.value;
    if pass.value.inFlight == {} {
      return Ok((pass.value, false)), launched;
    }
    var aborted: bool := *;
    var done :| done <= pass.value.inFlight && (aborted || done != {});
    var next := SettleTasks(cfg, pass.value, done, aborted);
    if !aborted {
      assert IsRace(cfg, pass.value, Outcomes(cfg, done));
    }
    return Ok((next, aborted)), launched;
  }

  lemma {:induction false} EndsFull(cfg: Config, run: seq<State>, status: Status)
    requires IsRun(cfg, run) && run[|run| - 1].pending == [] && status == ComputeStatus(cfg, run[|run| - 1])
    ensures FinishedBy(cfg, run, status, run[|run| - 1].results)
  {
  }

  lemma {:induction false} EndsStuck(cfg: Config, run: seq<State>, status: Status)
    requires IsRun(cfg, run) && run[|run| - 1].pending != [] && Stuck(cfg, run[|run| - 1])
    requires status == ComputeStatus(cfg, GiveUp(run[|run| - 1]))
    ensures FinishedBy(cfg, run, status, GiveUp(run[|run| - 1]).results)
  {
  }

  lemma {:induction false} CutThenSkipped(
    cfg: Config, origin: State, st: State, settled: State, results: map<string, StepResult>)
    requires Covered(cfg, origin) && Covered(cfg, st) && CutFrom(origin, st) && Recorded(st, st.inFlight, settled)
    requires results.Keys == settled.results.Keys + set id | id in settled.pending
    requires forall id :: id in settled.results ==> results[id] == settled.results[id]
    requires forall id :: id in results && id !in settled.results ==>
      results[id] == StepResult(Skipped, map[], WorkflowCancelled)
    ensures CancelledWith(cfg, origin, results)
  {
  }

  /** Runs a definition under some schedule, cancelled at some point or never. */
  method Execute(steps: seq<Step>, vars: map<string, Value>, concurrency: Option<int>, attempts: map<string, seq<Attempt>>)
    returns (r: WorkflowResult)
    ensures var cfg := Config(steps, ById(steps), vars, concurrency, attempts);
      && (Sound(cfg) ==> !r.Rejected?)
      && (r.Ended? ==> exists run :: FinishedBy(cfg, run, r.status, r.results))
      && (r.Cancelled? ==> exists run, origin :: IsCutPoint(cfg, run, origin) && CancelledWith(cfg, origin, r.results))
  {
    var cfg := Config(steps, ById(steps), vars, concurrency, attempts);
    var st := Initial(cfg);
    var cancelled: bool := *;
    ghost var run := [st];
    ghost var origin := st;
    InitialCovered(cfg);
    while st.pending != [] && !cancelled
      invariant IsRun(cfg, run) && Covered(cfg, st)
      invariant !cancelled ==> run[|run| - 1] == st
      invariant cancelled ==> IsCutPoint(cfg, run, origin) && CutFrom(origin, st) && Covered(cfg, origin)
      decreases !cancelled, |st.pending|, st.inFlight
    {
      if Stuck(cfg, st) {
        var end := GiveUp(st);
        var status := StatusOf(cfg, end);
        EndsStuck(cfg, run, status);
        return Ended(status, end.results);
      }
      var iteration, launched := Iterate(cfg, st);
      if iteration.Err? {
        RejectionIsUnsound(cfg, run);
        return Rejected(iteration.error);
      }
      st := iteration.value.0;
      if iteration.value.1 {
        cancelled := true;
        origin := launched;
      } else {
        RunExtends(cfg, run, st);
        run := run + [st];
      }
    }
    if cancelled {
      var settled := SettleTasks(cfg, st, st.inFlight, true);
      var results := SkipPending(settled);
      CutThenSkipped(cfg, origin, st, settled, results);
      return Cancelled(results);
    }
    var status := StatusOf(cfg, st);
    EndsFull(cfg, run, status);
    return Ended(status, st.results);
  }

  /** The loops over the definition that find the terminal steps and judge how each ended. */
  method StatusOf(cfg: Config, st: State) returns (status: Status)
    ensures status == ComputeStatus(cfg, st)
  {
    var dependedOn: set<string> := {};
    for i := 0 to |cfg.steps|
      invariant forall d :: d in dependedOn <==> exists j :: 0 <= j < i && d in cfg.steps[j].dependsOn
    {
      dependedOn := dependedOn + set d | d in cfg.steps[i].dependsOn;
    }
    for i := 0 to |cfg.steps|
      invariant forall j :: 0 <= j < i && IsSink(cfg.steps, cfg.steps[j].id) ==> EndedWell(cfg.steps[j], st)
    {
      var step := cfg.steps[i];
      assert Raw(cfg.steps)[i].id == step.id;
      if step.id !in dependedOn {
        if step.id !in st.results {
          return WorkflowFailed;
        }
        var result := st.results[step.id];
        if (result.status == Failed && !step.continueOnFailure) || (result.status == Skipped && step.id in st.tainted) {
          return WorkflowFailed;
        }
      }
    }
    return WorkflowSucceeded;
  }

  /** What never started is skipped on account of the cancel. */
  method SkipPending(st: State) returns (results: map<string, StepResult>)
    ensures results.Keys == st.results.Keys + set id | id in st.pending
    ensures forall id :: id in st.results ==> results[id] == st.results[id]
    ensures forall id :: id in results && id !in st.results ==> results[id] == StepResult(Skipped, map[], WorkflowCancelled)
  {
    results := st.results;
    for i := 0 to |st.pending|
      invariant results.Keys == st.results.Keys + set k | 0 <= k < i :: st.pending[k]
      invariant forall id :: id in st.results ==> results[id] == st.results[id]
      invariant forall id :: id in results && id !in st.results ==>
        results[id] == StepResult(Skipped, map[], WorkflowCancelled)
    {
      var id := st.pending[i];
      if id !in results {
        results := results[id := StepResult(Skipped, map[], WorkflowCancelled)];
      }
    }
  }
}
