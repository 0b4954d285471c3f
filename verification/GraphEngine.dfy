/** The tick of the durable graph engine: rounds over mutable state until quiescence or a stop. */
module GraphEngine {
  import opened Wrappers
  import opened StringOrder
  import opened GraphModel
  import opened GraphValidate
  import opened GraphRun
  import opened GraphAccounting
  import opened GraphBound
  import opened GraphRounds

  /** What executing a node yields: a result, or a wait. */
  datatype NodeYield = Yielded(failed: bool) | Waits

  datatype FatalError =
    | LoopBoundError(transition: string)
    | NoMatchingTransition(node: string)
    | SettlementBackstop
    | Inconsistent
    | Stalled

  datatype TickStatus = WaitingStatus | EndedAt(outcome: TerminalOutcome) | FailedWith(error: FatalError) | CancelledStatus

  /** Which answers a tick has handed out is told by no field of the source's outcome; it is kept for the account. */
  datatype TickOutcome =
    | Ticked(state: State, status: TickStatus, newWaits: seq<string>, delivered: set<string>)
    | TickRejected

  /** The engine's working copy of the persisted state. */
  class MutableState {
    const graph: WorkflowGraph
    var active: set<string>
    var waiting: set<string>
    var counters: map<string, nat>
    var activations: map<string, nat>
    var retries: map<string, nat>
    var history: seq<NodeResult>

    function View(): State
      reads this
    {
      State(active, waiting, counters, activations, retries, history)
    }

    constructor Thaw(graph: WorkflowGraph, st: State)
      ensures this.graph == graph && View() == st
    {
      this.graph := graph;
      active := st.active;
      waiting := st.waiting;
      counters := st.counters;
      activations := st.activations;
      retries := st.retries;
      history := st.history;
    }

    method DoActivate(id: string)
      modifies this
      ensures View() == Activate(graph, old(View()), id)
    {
      if FindNode(graph.nodes, id).Some? {
        activations := activations[id := Count(activations, id) + 1];
        active := active + {id};
        waiting := waiting - {id};
      }
    }

    /** Looks over the inbound transitions the way the reductions of the join rule do. */
    method CheckJoin(node: Node) returns (satisfied: bool)
      ensures satisfied <==> JoinSatisfied(graph, node, View())
    {
      var inbound := Inbound(graph.transitions, node.id);
      var activated := Count(activations, node.id) - EntryOffset(graph, node.id);
      var total, maxSingle, fired := 0, 0, 0;
      for i := |inbound| downto 0
        invariant total == TotalFirings(inbound[i..], counters)
        invariant maxSingle == MaxFirings(inbound[i..], counters)
        invariant fired == FiredCount(inbound[i..], counters)
      {
        var c := Count(counters, inbound[i].id);
        total := c + total;
        maxSingle := if c > maxSingle then c else maxSingle;
        fired := (if c > 0 then 1 else 0) + fired;
        assert inbound[i..][1..] == inbound[i + 1..];
      }
      assert inbound[0..] == inbound;
      if node.join.None? {
        return total > activated;
      }
      match node.join.value.mode {
        case AnyOf => satisfied := maxSingle > activated;
        case AllOf => satisfied := fired == |inbound| && activated == 0;
        case MinOf => satisfied := fired >= MinCount(node.join.value, inbound) && activated == 0;
      }
    }

    method DoFire(t: Transition)
      modifies this
      ensures View() == Fire(graph, old(View()), t)
    {
      counters := counters[t.id := Count(counters, t.id) + 1];
      var target := FindNode(graph.nodes, t.to);
      if target.Some? {
        var satisfied := CheckJoin(target.value);
        if satisfied {
          DoActivate(t.to);
        }
      }
    }

    /** The loop over the outgoing transitions, in declaration order. */
    method FireTransitions(ts: seq<Transition>, decisions: seq<Decision>) returns (r: Firing)
      requires |decisions| == |ts|
      modifies this
      ensures r == FireAll(graph, old(View()), ts, decisions, 0)
      ensures !r.ConditionThrew? ==> View() == r.st
    {
      var count := 0;
      for i := 0 to |ts|
        invariant FireAll(graph, old(View()), ts, decisions, 0) == FireAll(graph, View(), ts[i..], decisions[i..], count)
      {
        assert ts[i..][1..] == ts[i + 1..] && decisions[i..][1..] == decisions[i + 1..];
        if decisions[i] == ThrowsError {
          return ConditionThrew;
        }
        if decisions[i] == Passes {
          if AtBound(View(), ts[i]) {
            return BoundExceeded(View(), ts[i].id);
          }
          DoFire(ts[i]);
          count := count + 1;
        }
      }
      return FiredSome(View(), count);
    }

    method SettleNode(node: Node, failed: bool, decisions: seq<Decision>) returns (control: Control)
      requires |decisions| == |Outbound(graph.transitions, node.id)|
      modifies this
      ensures control == Settle(graph, old(View()), node, failed, decisions)
      ensures After(control).Some? ==> View() == After(control).value
    {
      var attempt := Attempt(View(), node.id);
      var retried := node.terminal.None? && Retries(node, failed, attempt);
      active := active - {node.id};
      waiting := waiting - {node.id};
      history := history + [NodeResult(node.id, attempt, failed, retried)];
      if node.terminal.Some? {
        return Terminal(View(), node.terminal.value);
      }
      if retried {
        retries := retries[node.id := Count(retries, node.id) + 1];
        active := active + {node.id};
        waiting := waiting - {node.id};
        return Continue(View());
      }
      var firing := FireTransitions(Outbound(graph.transitions, node.id), decisions);
      match firing {
        case ConditionThrew => return TickThrew;
        case BoundExceeded(s, t) => return LoopBoundExceeded(s, t);
        case FiredSome(s, count) =>
          if count == 0 && failed {
            return NoTransition(s);
          }
          return Continue(s);
      }
    }
  }

  /** Node and condition outcomes are the executors' and the expressions': anything, but terminal nodes never wait. */
  method AnyYield(node: Node) returns (y: NodeYield)
    ensures node.terminal.Some? ==> y.Yielded?
  {
    y := *;
    if node.terminal.Some? && !y.Yielded? {
      var guardFails: bool := *;
      y := Yielded(guardFails);
    }
  }

  method AnyDecisions(ts: seq<Transition>) returns (decisions: seq<Decision>)
    ensures DecisionsFit(ts, decisions)
  {
    decisions := [];
    for i := 0 to |ts|
      invariant |decisions| == i && forall k :: 0 <= k < i && !ts[k].conditional ==> decisions[k] == Passes
    {
      var d: Decision := *;
      decisions := decisions + [if ts[i].conditional then d else Passes];
    }
  }

  /** If a node begins to wait again in one tick, its last wait takes the place of the one before. */
  function Replaced(waits: seq<string>, id: string): (r: seq<string>)
    ensures forall x :: x in r <==> x in waits || x == id
    ensures Distinct(waits) ==> Distinct(r)
  {
    var rest := Dropped(waits, id);
    assert id !in rest;
    rest + [id]
  }

  function Dropped(waits: seq<string>, id: string): (r: seq<string>)
    ensures forall x :: x in r <==> x in waits && x != id
    ensures Distinct(waits) ==> Distinct(r)
  {
    if waits == [] then []
    else if waits[0] == id then Dropped(waits[1..], id)
    else
      assert Distinct(waits) ==> waits[0] !in waits[1..];
      [waits[0]] + Dropped(waits[1..], id)
  }

  /** Where every waiting node comes from: a wait opened in this tick, or one it found and was not given an answer to. */
  ghost predicate WaitsAccounted(
    st: State, before: set<string>, satisfactions: set<string>, sats: set<string>, newWaits: seq<string>)
  {
    && Distinct(newWaits)
    && sats <= satisfactions
    && forall id :: id in st.waiting ==> id in newWaits || (id in before && (id in satisfactions ==> id in sats))
  }

  ghost predicate RoundState(
    g: WorkflowGraph, st: State, before: set<string>, satisfactions: set<string>, sats: set<string>, waits: seq<string>)
  {
    Inv(g, st) && WaitsAccounted(st, before, satisfactions, sats, waits)
  }

  /** How one round over the runnable nodes ends. */
  datatype RoundEnd = Quiet | Stopped(status: TickStatus) | Threw

  predicate IsStop(end: RoundEnd) {
    && end.Stopped?
    && match end.status
       case EndedAt(_) => true
       case FailedWith(e) => e.LoopBoundError? || e.NoMatchingTransition?
       case _ => false
  }

  /** What executing a node did to the state, as a step. */
  ghost predicate DidStep(g: WorkflowGraph, st: State, step: Step, end: RoundEnd, next: State) {
    && !step.Resumes? && Fits(g, st, step) && Next(g, st, step) == Some(next)
    && (end.Quiet? && step.Settles? ==> ControlOf(g, st, step).Continue?)
    && (end.Stopped? && end.status.EndedAt? ==> EndsAt(g, st, step, end.status.outcome))
  }

  /** Applies a node's result: one settlement, which may stop the tick. An effect that throws rejects it. */
  method ApplyResult(m: MutableState, node: Node, failed: bool, ghost before: set<string>,
                     ghost satisfactions: set<string>, ghost sats: set<string>, ghost waits: seq<string>)
    returns (end: RoundEnd, ghost step: Step)
    requires ReferencesOk(m.graph) && RoundState(m.graph, m.View(), before, satisfactions, sats, waits)
    requires Settling(m.graph, m.View(), node) && FindNode(m.graph.nodes, node.id) == Some(node)
    modifies m
    ensures !end.Threw? ==> RoundState(m.graph, m.View(), before, satisfactions, sats, waits)
    ensures !end.Threw? ==> |m.history| == |old(m.history)| + 1 && StillRunnable(old(m.View()), m.View(), node.id)
    ensures !end.Threw? ==> DidStep(m.graph, old(m.View()), step, end, m.View()) && step.id == node.id
    ensures end.Stopped? ==> IsStop(end)
  {
    var decisions := AnyDecisions(Outbound(m.graph.transitions, node.id));
    SettleKeepsInv(m.graph, m.View(), node, failed, decisions);
    SettleKeepsOthersActive(m.graph, m.View(), node, failed, decisions);
    step := Settles(node.id, failed, decisions);
    var control := m.SettleNode(node, failed, decisions);
    var effectThrows: bool := *;
    if effectThrows {
      return Threw, step;
    }
    match control {
      case TickThrew => end := Threw;
      case Terminal(_, outcome) => end := Stopped(EndedAt(outcome));
      case LoopBoundExceeded(_, t) => end := Stopped(FailedWith(LoopBoundError(t)));
      case NoTransition(_) => end := Stopped(FailedWith(NoMatchingTransition(node.id)));
      case Continue(_) => end := Quiet;
    }
  }

  /** Nobody else stops being active or begins to wait. */
  ghost predicate StillRunnable(st: State, next: State, id: string) {
    st.active - {id} <= next.active && next.waiting <= st.waiting + {id}
  }

  /** Applies a node's wait: it is suspended, its wait replacing an earlier one of this tick. */
  method ApplyWait(m: MutableState, id: string, waits: seq<string>, ghost before: set<string>,
                   ghost satisfactions: set<string>, ghost sats: set<string>)
    returns (next: seq<string>)
    requires RoundState(m.graph, m.View(), before, satisfactions, sats, waits) && id in m.active
    modifies m
    ensures RoundState(m.graph, m.View(), before, satisfactions, sats, next)
    ensures m.View() == old(m.View()).(waiting := old(m.waiting) + {id})
  {
    next := waits;
    WaitsDoNotCount(m.graph, m.View(), m.waiting + {id});
    if id !in m.waiting {
      m.waiting := m.waiting + {id};
      next := Replaced(waits, id);
    }
    assert m.View() == old(m.View()).(waiting := old(m.waiting) + {id});
  }

  /** Executes one node and applies what it yields. */
  method ExecuteOne(m: MutableState, id: string, waits: seq<string>, ghost before: set<string>,
                    ghost satisfactions: set<string>, ghost sats: set<string>)
    returns (end: RoundEnd, next: seq<string>, settled: nat, ghost step: Step)
    requires ReferencesOk(m.graph) && RoundState(m.graph, m.View(), before, satisfactions, sats, waits)
    requires id in m.active
    modifies m
    ensures !end.Threw? ==> RoundState(m.graph, m.View(), before, satisfactions, sats, next)
    ensures !end.Threw? ==> |m.history| == |old(m.history)| + settled && StillRunnable(old(m.View()), m.View(), id)
    ensures !end.Threw? ==> DidStep(m.graph, old(m.View()), step, end, m.View()) && step.id == id
    ensures end.Stopped? ==> IsStop(end)
  {
    FindNodeKnown(m.graph.nodes, id);
    var node := FindNode(m.graph.nodes, id).value;
    var yielded := AnyYield(node);
    if yielded.Waits? {
      next := ApplyWait(m, id, waits, before, satisfactions, sats);
      end, settled, step := Quiet, 0, Suspends(id);
    } else {
      end, step := ApplyResult(m, node, yielded.failed, before, satisfactions, sats, waits);
      next, settled := waits, 1;
    }
  }

  /** The answers at hand for waiting nodes are handed out before anything executes, each for one execution. */
  method Deliver(m: MutableState, sats: set<string>, ghost before: set<string>, ghost satisfactions: set<string>,
                 ghost waits: seq<string>)
    returns (left: set<string>)
    requires RoundState(m.graph, m.View(), before, satisfactions, sats, waits)
    modifies m
    ensures RoundState(m.graph, m.View(), before, satisfactions, left, waits)
    ensures m.View() == old(m.View()).(waiting := old(m.waiting) - sats)
    ensures left == sats - old(m.waiting) && Leads(m.graph, old(m.View()), m.View())
    ensures sats == {} ==> m.View() == old(m.View())
  {
    var consumed := m.waiting * sats;
    WaitsDoNotCount(m.graph, m.View(), m.waiting - consumed);
    LeadsByAnswers(m.graph, m.View(), consumed);
    m.waiting := m.waiting - consumed;
    assert m.waiting == old(m.waiting) - sats;
    left := sats - consumed;
  }

  /**
   * Executes the runnable nodes and applies what they yield, in order; a stop discards the
   * executions after it.
   */
  method Round(m: MutableState, runnable: seq<string>, newWaits: seq<string>,
               ghost before: set<string>, ghost satisfactions: set<string>, ghost sats: set<string>)
    returns (end: RoundEnd, waits: seq<string>, settled: nat, ghost steps: seq<Step>)
    requires ReferencesOk(m.graph) && RoundState(m.graph, m.View(), before, satisfactions, sats, newWaits)
    requires Distinct(runnable) && Within(runnable, Runnable(m.View(), {}))
    modifies m
    ensures !end.Threw? ==> RoundState(m.graph, m.View(), before, satisfactions, sats, waits)
    ensures !end.Threw? ==> |m.history| == |old(m.history)| + settled
    ensures end.Stopped? ==> IsStop(end)
    ensures !end.Threw? ==> RunTo(m.graph, old(m.View()), steps) == Some(m.View())
    ensures !end.Threw? ==> Took(m.graph, old(m.View()), runnable, steps, end)
  {
    waits, settled, end, steps := newWaits, 0, Quiet, [];
    for i := 0 to |runnable|
      invariant RoundState(m.graph, m.View(), before, satisfactions, sats, waits) && end.Quiet?
      invariant |m.history| == |old(m.history)| + settled
      invariant forall k :: i <= k < |runnable| ==> runnable[k] in m.active
      invariant RunTo(m.graph, old(m.View()), steps) == Some(m.View())
      invariant TookPart(m.graph, old(m.View()), runnable, steps, i)
    {
      var one;
      ghost var step;
      end, waits, one, step := ExecuteOne(m, runnable[i], waits, before, satisfactions, sats);
      settled := settled + one;
      if end.Threw? {
        return;
      }
      TookOneMore(m.graph, old(m.View()), runnable, steps, i, step, end, m.View());
      steps := steps + [step];
      if !end.Quiet? {
        return;
      }
    }
  }

  /** The steps are those of the first so many runnable nodes, and the tick has gone on. */
  ghost predicate TookPart(g: WorkflowGraph, st: State, runnable: seq<string>, steps: seq<Step>, n: nat) {
    && n == |steps| <= |runnable| && Ids(steps) == runnable[..n]
    && (forall i :: 0 <= i < |steps| ==> !steps[i].Resumes?)
    && GoesOn(g, st, steps)
  }

  /** The steps of a round are those of all runnable nodes, or the last one has ended the run. */
  ghost predicate Took(g: WorkflowGraph, st: State, runnable: seq<string>, steps: seq<Step>, end: RoundEnd) {
    && (end.Quiet? ==> TookPart(g, st, runnable, steps, |runnable|))
    && (end.Stopped? && end.status.EndedAt? ==>
          && steps != [] && RunTo(g, st, steps[..|steps| - 1]).Some?
          && TookPart(g, st, runnable, steps[..|steps| - 1], |steps| - 1)
          && |steps| <= |runnable| && steps[|steps| - 1].id == runnable[|steps| - 1]
          && EndsAt(g, RunTo(g, st, steps[..|steps| - 1]).value, steps[|steps| - 1], end.status.outcome))
  }

  lemma {:induction false} TookOneMore(
    g: WorkflowGraph, st: State, runnable: seq<string>, steps: seq<Step>, i: nat, step: Step, end: RoundEnd, next: State)
    requires i < |runnable| && TookPart(g, st, runnable, steps, i) && RunTo(g, st, steps).Some?
    requires DidStep(g, RunTo(g, st, steps).value, step, end, next) && step.id == runnable[i]
    ensures RunTo(g, st, steps + [step]) == Some(next)
    ensures end.Quiet? ==> TookPart(g, st, runnable, steps + [step], i + 1)
    ensures end.Stopped? ==> Took(g, st, runnable, steps + [step], end)
  {
    RunOneMore(g, st, steps, step);
    assert (steps + [step])[..|steps|] == steps;
    assert runnable[..i + 1] == runnable[..i] + [runnable[i]];
  }

  /** A state a run can be persisted in: fresh, or with its accounts in order. */
  ghost predicate Persisted(g: WorkflowGraph, st: State) {
    st == Empty() || Inv(g, st)
  }

  /** What holds of a tick between its rounds. */
  ghost predicate Ticking(
    g: WorkflowGraph, st: State, state: State, satisfactions: set<string>, sats: set<string>, waits: seq<string>,
    settlements: nat)
  {
    && RoundState(g, st, state.waiting, satisfactions, sats, waits) && settlements <= |st.history|
    && Leads(g, Start(g, state), st)
  }

  method Begin(g: WorkflowGraph, state: State, ghost satisfactions: set<string>) returns (m: MutableState)
    requires ReferencesOk(g) && Persisted(g, state)
    ensures fresh(m) && m.graph == g && Ticking(g, m.View(), state, satisfactions, satisfactions, [], 0)
    ensures m.View() == Start(g, state)
  {
    m := new MutableState.Thaw(g, state);
    if m.active == {} && m.waiting == {} && m.activations == map[] {
      m.DoActivate(g.entry);
    }
    StartPersistedInv(g, state);
    LeadsNowhere(g, Start(g, state));
    assert m.View() == Start(g, state);
  }

  /** The outcome of a tick that was neither aborted nor stopped. */
  method Quiescent(m: MutableState, waits: seq<string>, delivered: set<string>) returns (outcome: TickOutcome)
    ensures outcome.Ticked? && outcome.state == m.View() && outcome.newWaits == waits && outcome.delivered == delivered
    ensures outcome.status ==
      if m.waiting != {} then WaitingStatus else FailedWith(if m.active != {} then Inconsistent else Stalled)
  {
    if m.waiting != {} {
      return Ticked(m.View(), WaitingStatus, waits, delivered);
    }
    if m.active != {} {
      return Ticked(m.View(), FailedWith(Inconsistent), waits, delivered);
    }
    return Ticked(m.View(), FailedWith(Stalled), waits, delivered);
  }

  /** A waiting node has begun to wait in this tick, or was waiting before and got no answer. */
  ghost predicate WaitsExplained(state: State, outcome: TickOutcome)
    requires outcome.Ticked?
  {
    forall id :: id in outcome.state.waiting ==>
      id in outcome.newWaits || (id in state.waiting && id !in outcome.delivered)
  }

  ghost predicate OutcomeOk(g: WorkflowGraph, state: State, satisfactions: set<string>, max: nat, outcome: TickOutcome)
    requires outcome.Ticked?
  {
    && Inv(g, outcome.state)
    && Distinct(outcome.newWaits) && outcome.delivered <= satisfactions
    && WaitsExplained(state, outcome)
    && (GraphOk(g) ==> |outcome.state.history| <= RunBound(g))
    && match outcome.status
       case WaitingStatus =>
         && outcome.state.active == outcome.state.waiting != {}
         && forall id :: id in outcome.state.waiting ==>
              id in outcome.newWaits || (id in state.waiting && id !in satisfactions)
       case FailedWith(error) =>
         && error != Inconsistent
         && (error == SettlementBackstop && GraphOk(g) ==> max <= RunBound(g))
       case _ => true
  }

  /** What one iteration of the tick's loop leads to. */
  datatype TickStep = Again | NothingRunnable | StopWith(status: TickStatus) | Reject

  ghost predicate StepOk(step: TickStep, st: State, sats: set<string>, max: nat, settlements: nat) {
    match step
    case NothingRunnable => Runnable(st, sats) == {}
    case StopWith(FailedWith(SettlementBackstop)) => max <= settlements
    case StopWith(status) => IsStop(Stopped(status))
    case _ => true
  }

  /** Every iteration that goes on settles a node, answers a satisfaction or suspends a node. */
  ghost predicate Progress(st: State, next: State, sats: set<string>, left: set<string>, settled: nat) {
    settled > 0 || left < sats || (left == sats && next.active - next.waiting < st.active - st.waiting)
  }

  /** There was nothing to do. */
  predicate IsIdle(step: TickStep) {
    step.NothingRunnable? || step == StopWith(FailedWith(SettlementBackstop))
  }

  /** One round over what is runnable, its satisfactions delivered. */
  method RunRunnable(m: MutableState, ghost state: State, ghost satisfactions: set<string>, sats: set<string>,
                     newWaits: seq<string>, ghost settlements: nat, runnable: seq<string>)
    returns (step: TickStep, waits: seq<string>, left: set<string>, settled: nat)
    requires ReferencesOk(m.graph)
    requires Ticking(m.graph, m.View(), state, satisfactions, sats, newWaits, settlements)
    requires runnable != [] && runnable == Sorted(Runnable(m.View(), sats))
    modifies m
    ensures !step.Reject? ==> Ticking(m.graph, m.View(), state, satisfactions, left, waits, settlements + settled)
    ensures StepOk(step, m.View(), left, 0, settlements + settled) && !step.NothingRunnable?
    ensures step != StopWith(FailedWith(SettlementBackstop))
    ensures step.Again? ==> Progress(old(m.View()), m.View(), sats, left, settled)
    ensures sats == {} ==> left == {} && Unanswered(m.graph, old(m.View()), step, m.View())
  {
    ghost var st := m.View();
    left := Deliver(m, sats, state.waiting, satisfactions, newWaits);
    forall k | 0 <= k < |runnable|
      ensures runnable[k] in Runnable(m.View(), {})
    {
      assert runnable[k] in runnable;
    }
    ghost var delivered := m.View();
    var end;
    ghost var steps;
    end, waits, settled, steps := Round(m, runnable, newWaits, state.waiting, satisfactions, left);
    if !end.Threw? {
      RoundDone(m.graph, Start(m.graph, state), st, delivered, runnable, steps, end, m.View(), sats, settled);
    }
    match end {
      case Threw => step := Reject;
      case Stopped(status) => step := StopWith(status);
      case Quiet =>
        step := Again;
    }
  }

  /** What a round does that nobody's answer plays a part in. */
  ghost predicate Unanswered(g: WorkflowGraph, st: State, step: TickStep, next: State) {
    && (step.Again? ==> RoundTo(g, st, next))
    && (step.StopWith? && step.status.EndedAt? ==> RoundEnds(g, st, step.status.outcome))
  }

  lemma {:induction false} LeadsRound(g: WorkflowGraph, a: State, st: State, delivered: State, steps: seq<Step>, next: State)
    requires Leads(g, a, st) && Leads(g, st, delivered) && RunTo(g, delivered, steps) == Some(next)
    ensures Leads(g, a, next)
  {
    LeadsOn(g, a, st, delivered);
    assert Leads(g, delivered, next);
    LeadsOn(g, a, delivered, next);
  }

  lemma {:induction false} RoundTaken(
    g: WorkflowGraph, st: State, runnable: seq<string>, steps: seq<Step>, end: RoundEnd, next: State)
    requires runnable != [] && runnable == Sorted(Runnable(st, {})) && Took(g, st, runnable, steps, end)
    requires RunTo(g, st, steps) == Some(next)
    ensures end.Quiet? ==> RoundTo(g, st, next)
    ensures end.Stopped? && end.status.EndedAt? ==> RoundEnds(g, st, end.status.outcome)
  {
    if end.Quiet? {
      assert runnable[..|runnable|] == runnable;
      assert FullRound(g, st, next, steps);
    } else if end.Stopped? && end.status.EndedAt? {
      var front, last := steps[..|steps| - 1], steps[|steps| - 1];
      assert Ids(front + [last]) == runnable[..|steps|];
      assert EndsAt(g, RunTo(g, st, front).value, last, end.status.outcome);
      assert LastRound(g, st, front, last, end.status.outcome);
    }
  }

  /** What a round comes to: it leads on, makes progress, and is a round of the relation if nobody was answered. */
  lemma {:induction false} RoundDone(
    g: WorkflowGraph, a: State, st: State, delivered: State, runnable: seq<string>, steps: seq<Step>, end: RoundEnd,
    next: State, sats: set<string>, settled: nat)
    requires Leads(g, a, st) && Leads(g, st, delivered) && RunTo(g, delivered, steps) == Some(next)
    requires runnable != [] && runnable == Sorted(Runnable(st, sats)) && Took(g, delivered, runnable, steps, end)
    requires delivered == st.(waiting := st.waiting - sats) && |next.history| == |st.history| + settled
    ensures Leads(g, a, next)
    ensures end.Quiet? ==> Progress(st, next, sats, sats - st.waiting, settled)
    ensures sats == {} && end.Quiet? ==> RoundTo(g, st, next)
    ensures sats == {} && end.Stopped? && end.status.EndedAt? ==> RoundEnds(g, st, end.status.outcome)
  {
    LeadsRound(g, a, st, delivered, steps, next);
    if sats == {} {
      assert delivered == st;
      RoundTaken(g, delivered, runnable, steps, end, next);
    }
    if end.Quiet? {
      QuietRoundProgresses(g, st, delivered, runnable, steps, next, sats, settled);
    }
  }

  lemma {:induction false} QuietRoundProgresses(
    g: WorkflowGraph, st: State, delivered: State, runnable: seq<string>, steps: seq<Step>, next: State,
    sats: set<string>, settled: nat)
    requires TookPart(g, delivered, runnable, steps, |runnable|) && RunTo(g, delivered, steps) == Some(next)
    requires runnable != [] && forall id :: id in runnable <==> id in Runnable(st, sats)
    requires delivered == st.(waiting := st.waiting - sats) && |next.history| == |st.history| + settled
    ensures Progress(st, next, sats, sats - st.waiting, settled)
  {
    PartProgresses(g, delivered, steps);
    assert runnable[..|runnable|] == runnable;
    RoundAnswersOrSuspends(st, next, sats, sats - st.waiting, runnable, settled);
  }

  method TickOnce(m: MutableState, ghost state: State, ghost satisfactions: set<string>, sats: set<string>,
                  newWaits: seq<string>, settlements: nat, max: nat)
    returns (step: TickStep, waits: seq<string>, left: set<string>, settled: nat)
    requires ReferencesOk(m.graph)
    requires Ticking(m.graph, m.View(), state, satisfactions, sats, newWaits, settlements)
    modifies m
    ensures !step.Reject? ==> Ticking(m.graph, m.View(), state, satisfactions, left, waits, settlements + settled)
    ensures StepOk(step, m.View(), left, max, settlements + settled)
    ensures step.Again? ==> settlements < max && Progress(old(m.View()), m.View(), sats, left, settled)
    ensures Runnable(old(m.View()), sats) == {} ==> IsIdle(step) && m.View() == old(m.View())
    ensures sats == {} ==> left == {} && Unanswered(m.graph, old(m.View()), step, m.View())
  {
    waits, left, settled := newWaits, sats, 0;
    if settlements >= max {
      step := StopWith(FailedWith(SettlementBackstop));
      return;
    }
    var runnable := Sort(Runnable(m.View(), sats));
    if |runnable| == 0 {
      step := NothingRunnable;
      return;
    }
    assert runnable[0] in Runnable(m.View(), sats);
    step, waits, left, settled := RunRunnable(m, state, satisfactions, sats, newWaits, settlements, runnable);
  }

  /** A run that has begun and has nothing left to execute. */
  predicate RanOut(st: State) {
    st.active == {} && st.waiting == {} && st.activations != map[]
  }

  /** Nothing that could throw: no entry to activate and no node to execute. */
  predicate NothingToDo(g: WorkflowGraph, state: State, satisfactions: set<string>) {
    Start(g, state) == state && Runnable(state, satisfactions) == {}
  }

  /** What a tick makes of such a run, even if it had reached its terminal node. */
  predicate Lifeless(status: TickStatus) {
    status == CancelledStatus || status == FailedWith(Stalled) || status == FailedWith(SettlementBackstop)
  }

  /** The rounds so far, and how the last one ended if it ended at a terminal node. */
  ghost predicate Played(g: WorkflowGraph, a: State, states: seq<State>, step: TickStep, now: State) {
    && Rounds(g, states) && states[0] == a
    && (step.Again? ==> states[|states| - 1] == now)
    && (step.StopWith? && step.status.EndedAt? ==> RoundEnds(g, states[|states| - 1], step.status.outcome))
  }

  lemma {:induction false} PlayedOnce(
    g: WorkflowGraph, a: State, states: seq<State>, st: State, step: TickStep, next: State)
    requires Rounds(g, states) && states[0] == a && states[|states| - 1] == st && Unanswered(g, st, step, next)
    ensures Played(g, a, if step.Again? then states + [next] else states, step, next)
  {
    var more := states + [next];
    if step.Again? {
      forall i: nat | 0 < i < |more|
        ensures RoundAt(g, more, i)
      {
        assert i < |states| ==> RoundAt(g, states, i);
      }
    }
  }

  lemma {:induction false} PlayedMayEnd(g: WorkflowGraph, a: State, states: seq<State>, step: TickStep, now: State)
    requires Played(g, a, states, step, now) && step.StopWith? && step.status.EndedAt?
    ensures MayEnd(g, a, step.status.outcome)
  {
    assert EndsAfter(g, a, |states| - 1, step.status.outcome);
  }

  /**
   * One tick. From a waiting outcome every waiting node either got its wait in this tick or kept
   * an unanswered one; settlements stay within the bound of the graph over all ticks together. The
   * state is one that steps lead to, and without answers a terminal node is reached only by rounds
   * from the state it began with.
   */
  method Tick(g: WorkflowGraph, state: State, satisfactions: set<string>, maxSettlements: nat) returns (outcome: TickOutcome)
    requires ReferencesOk(g) && Persisted(g, state)
    ensures outcome.Ticked? ==> OutcomeOk(g, state, satisfactions, maxSettlements, outcome)
    ensures outcome.Ticked? && RanOut(state) ==> outcome.state == state && Lifeless(outcome.status)
    ensures outcome.Ticked? ==> Leads(g, Start(g, state), outcome.state)
    ensures outcome.Ticked? && satisfactions == {} && outcome.status.EndedAt? ==>
      MayEnd(g, Start(g, state), outcome.status.outcome)
    ensures outcome.TickRejected? ==> !NothingToDo(g, state, satisfactions)
  {
    var entryThrows: bool := *;
    if entryThrows && Start(g, state) != state {
      return TickRejected;
    }
    var m := Begin(g, state, satisfactions);
    ghost var states := [m.View()];
    var newWaits: seq<string> := [];
    var sats := satisfactions;
    var settlements: nat := 0;
    var step := Again;
    var aborted: bool := *;
    while !aborted && step.Again?
      invariant fresh(m) && m.graph == g && Ticking(g, m.View(), state, satisfactions, sats, newWaits, settlements)
      invariant StepOk(step, m.View(), sats, maxSettlements, settlements) && !step.Reject?
      invariant RanOut(state) ==> m.View() == state && (step.Again? || IsIdle(step))
      invariant NothingToDo(g, state, satisfactions) ==>
        m.View() == state && (IsIdle(step) || (step.Again? && sats == satisfactions))
      invariant satisfactions == {} ==> sats == {} && Played(g, Start(g, state), states, step, m.View())
      decreases !aborted && step.Again?, maxSettlements - settlements, sats, m.active - m.waiting
    {
      var settled;
      ghost var st := m.View();
      step, newWaits, sats, settled := TickOnce(m, state, satisfactions, sats, newWaits, settlements, maxSettlements);
      if step.Reject? {
        return TickRejected;
      }
      if satisfactions == {} {
        PlayedOnce(g, Start(g, state), states, st, step, m.View());
      }
      states := if step.Again? then states + [m.View()] else states;
      settlements := settlements + settled;
      aborted := *;
    }
    if !aborted {
      aborted := *;
    }
    if satisfactions == {} && !aborted && step.StopWith? && step.status.EndedAt? {
      PlayedMayEnd(g, Start(g, state), states, step, m.View());
    }
    outcome := Conclude(m, state, satisfactions, sats, newWaits, settlements, step, aborted, maxSettlements);
  }

  /** What a tick answers with when it is over: an abort counts more than how it ended. */
  method Conclude(m: MutableState, ghost state: State, satisfactions: set<string>, sats: set<string>, newWaits: seq<string>,
                  ghost settlements: nat, step: TickStep, aborted: bool, ghost max: nat)
    returns (outcome: TickOutcome)
    requires Ticking(m.graph, m.View(), state, satisfactions, sats, newWaits, settlements)
    requires StepOk(step, m.View(), sats, max, settlements) && !step.Reject? && (step.Again? ==> aborted)
    ensures outcome.Ticked? && outcome.state == m.View() && OutcomeOk(m.graph, state, satisfactions, max, outcome)
    ensures aborted ==> outcome.status == CancelledStatus
    ensures !aborted && step.StopWith? ==> outcome.status == step.status
    ensures !aborted && step.NothingRunnable? ==>
      outcome.status == if m.waiting != {} then WaitingStatus else FailedWith(Stalled)
  {
    BoundAtTickEnd(m.graph, m.View());
    if aborted {
      return Ticked(m.View(), CancelledStatus, newWaits, satisfactions - sats);
    }
    if step.StopWith? {
      return Ticked(m.View(), step.status, newWaits, satisfactions - sats);
    }
    outcome := Quiescent(m, newWaits, satisfactions - sats);
    NothingRunnableMeansWaiting(m.graph, m.View(), state, satisfactions, sats, newWaits);
  }

  /** With nothing runnable every active node waits, and for an answer that is not at hand. */
  lemma {:induction false} NothingRunnableMeansWaiting(
    g: WorkflowGraph, st: State, state: State, satisfactions: set<string>, sats: set<string>, waits: seq<string>)
    requires RoundState(g, st, state.waiting, satisfactions, sats, waits) && Runnable(st, sats) == {}
    ensures st.active == st.waiting
    ensures forall id :: id in st.waiting ==> id in waits || (id in state.waiting && id !in satisfactions)
  {
    forall id | id in st.active
      ensures id in st.waiting && id !in sats
    {
      assert id !in Runnable(st, sats);
    }
  }

  lemma {:induction false} BoundAtTickEnd(g: WorkflowGraph, st: State)
    requires Inv(g, st)
    ensures GraphOk(g) ==> |st.history| <= RunBound(g)
  {
    if GraphOk(g) {
      SettlementsWithinBound(g, st);
    }
  }

  /** A round that settles nothing answers a satisfaction or suspends a node. */
  lemma {:induction false} RoundAnswersOrSuspends(
    st: State, next: State, sats: set<string>, left: set<string>, runnable: seq<string>, settled: nat)
    requires runnable != [] && forall id :: id in runnable <==> id in Runnable(st, sats)
    requires left == sats - st.waiting
    requires settled == 0 ==> next.active == st.active && st.waiting - sats <= next.waiting
    requires settled == 0 ==> forall k :: 0 <= k < |runnable| ==> runnable[k] in next.waiting
    ensures Progress(st, next, sats, left, settled)
  {
    var id := runnable[0];
    assert id in Runnable(st, sats);
    if settled == 0 && left == sats {
      forall x | x in next.active
        ensures x in next.waiting
      {
        assert x in Runnable(st, sats) ==> x in runnable;
      }
      assert id in st.active - st.waiting;
    }
  }

  lemma {:induction false} StartPersistedInv(g: WorkflowGraph, st: State)
    requires ReferencesOk(g) && Persisted(g, st)
    ensures Inv(g, Start(g, st)) && Start(g, st).waiting <= st.waiting
  {
    StartInv(g);
    if st != Empty() && st.activations == map[] {
      EntryWasActivated(g, st);
    }
  }

  lemma {:induction false} EntryWasActivated(g: WorkflowGraph, st: State)
    requires ReferencesOk(g) && Inv(g, st)
    ensures st.activations != map[]
  {
    assert g.entry in NodeIds(g.nodes);
    var i :| 0 <= i < |g.nodes| && g.nodes[i].id == g.entry;
    assert JoinAccount(g, st, g.nodes[i]);
    assert Count(st.activations, g.entry) >= 1;
  }
}
