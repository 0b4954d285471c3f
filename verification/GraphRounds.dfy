/** Runs as sequences of steps, and the rounds of a tick that nobody answers. */
module GraphRounds {
  import opened Wrappers
  import opened StringOrder
  import opened GraphModel
  import opened GraphValidate
  import opened GraphRun
  import opened GraphAccounting
  import opened GraphBound

  /** What happens to a node: it begins to wait, is answered, or settles. */
  datatype Step =
    | Suspends(id: string)
    | Resumes(id: string)
    | Settles(id: string, failed: bool, decisions: seq<Decision>)

  /** The step concerns a node that is active; terminal nodes never wait, and conditions decide where there are any. */
  predicate Fits(g: WorkflowGraph, st: State, step: Step) {
    && step.id in st.active
    && (step.Suspends? ==> !IsTerminalNode(g, step.id))
    && (step.Settles? ==>
          FindNode(g.nodes, step.id).Some? && DecisionsFit(Outbound(g.transitions, step.id), step.decisions))
  }

  function ControlOf(g: WorkflowGraph, st: State, step: Step): Control
    requires Fits(g, st, step) && step.Settles?
  {
    Settle(g, st, FindNode(g.nodes, step.id).value, step.failed, step.decisions)
  }

  /** Where a step leads; nowhere if it does not fit or throws. */
  function Next(g: WorkflowGraph, st: State, step: Step): Option<State> {
    if !Fits(g, st, step) then None
    else
      match step
      case Suspends(id) => Some(st.(waiting := st.waiting + {id}))
      case Resumes(id) => Some(st.(waiting := st.waiting - {id}))
      case Settles(_, _, _) => After(ControlOf(g, st, step))
  }

  /** Where a sequence of steps leads. */
  function RunTo(g: WorkflowGraph, st: State, steps: seq<Step>): Option<State> {
    if steps == [] then Some(st)
    else
      match RunTo(g, st, steps[..|steps| - 1])
      case None => None
      case Some(s) => Next(g, s, steps[|steps| - 1])
  }

  ghost predicate Leads(g: WorkflowGraph, a: State, b: State) {
    exists steps :: RunTo(g, a, steps) == Some(b)
  }

  lemma {:induction false} RunOneMore(g: WorkflowGraph, st: State, steps: seq<Step>, step: Step)
    requires RunTo(g, st, steps).Some?
    ensures RunTo(g, st, steps + [step]) == Next(g, RunTo(g, st, steps).value, step)
  {
    assert (steps + [step])[..|steps|] == steps;
  }

  lemma {:induction false} RunOn(g: WorkflowGraph, st: State, steps: seq<Step>, more: seq<Step>)
    requires RunTo(g, st, steps).Some?
    ensures RunTo(g, st, steps + more) == RunTo(g, RunTo(g, st, steps).value, more)
  {
    if more == [] {
      assert steps + more == steps;
    } else {
      RunOn(g, st, steps, more[..|more| - 1]);
      assert (steps + more)[..|steps + more| - 1] == steps + more[..|more| - 1];
    }
  }

  lemma {:induction false} LeadsNowhere(g: WorkflowGraph, a: State)
    ensures Leads(g, a, a)
  {
    assert RunTo(g, a, []) == Some(a);
  }

  lemma {:induction false} LeadsOn(g: WorkflowGraph, a: State, b: State, c: State)
    requires Leads(g, a, b) && Leads(g, b, c)
    ensures Leads(g, a, c)
  {
    var steps :| RunTo(g, a, steps) == Some(b);
    var more :| RunTo(g, b, more) == Some(c);
    RunOn(g, a, steps, more);
  }

  lemma {:induction false} LeadsByOne(g: WorkflowGraph, a: State, step: Step)
    requires Next(g, a, step).Some?
    ensures Leads(g, a, Next(g, a, step).value)
  {
    assert RunTo(g, a, []) == Some(a);
    RunOneMore(g, a, [], step);
    assert [] + [step] == [step];
  }

  lemma {:induction false} LeadsByAnswers(g: WorkflowGraph, a: State, ids: set<string>)
    requires ids <= a.active
    ensures Leads(g, a, a.(waiting := a.waiting - ids))
    decreases ids
  {
    if ids == {} {
      assert a.(waiting := a.waiting - ids) == a;
      LeadsNowhere(g, a);
    } else {
      var id :| id in ids;
      var next := a.(waiting := a.waiting - {id});
      LeadsByOne(g, a, Resumes(id));
      LeadsByAnswers(g, next, ids - {id});
      assert next.waiting - (ids - {id}) == a.waiting - ids;
      LeadsOn(g, a, next, a.(waiting := a.waiting - ids));
    }
  }

  // -------------------------------------------------------- what steps keep

  lemma {:induction false} WaitsDoNotCount(g: WorkflowGraph, st: State, waiting: set<string>)
    requires Inv(g, st) && waiting <= st.active
    ensures Inv(g, st.(waiting := waiting))
  {
    var next := st.(waiting := waiting);
    forall i | 0 <= i < |g.nodes|
      ensures JoinAccount(g, next, g.nodes[i]) && VisitAccount(next, g.nodes[i])
    {
      assert JoinAccount(g, st, g.nodes[i]) && VisitAccount(st, g.nodes[i]);
    }
    forall i | 0 <= i < |g.transitions|
      ensures CounterAccount(next, g.transitions[i])
    {
      assert CounterAccount(st, g.transitions[i]);
    }
  }

  lemma {:induction false} NextKeepsInv(g: WorkflowGraph, st: State, step: Step)
    requires ReferencesOk(g) && Inv(g, st) && Next(g, st, step).Some?
    ensures Inv(g, Next(g, st, step).value)
  {
    match step
    case Suspends(id) => WaitsDoNotCount(g, st, st.waiting + {id});
    case Resumes(id) => WaitsDoNotCount(g, st, st.waiting - {id});
    case Settles(id, failed, decisions) =>
      SettleKeepsInv(g, st, FindNode(g.nodes, id).value, failed, decisions);
  }

  lemma {:induction false} RunKeepsInv(g: WorkflowGraph, st: State, steps: seq<Step>)
    requires ReferencesOk(g) && Inv(g, st) && RunTo(g, st, steps).Some?
    ensures Inv(g, RunTo(g, st, steps).value)
  {
    if steps != [] {
      var front := steps[..|steps| - 1];
      RunKeepsInv(g, st, front);
      NextKeepsInv(g, RunTo(g, st, front).value, steps[|steps| - 1]);
    }
  }

  /** A settlement takes no node but its own out of the active ones, makes none wait, and is recorded. */
  lemma {:induction false} SettleKeepsOthersActive(
    g: WorkflowGraph, st: State, node: Node, failed: bool, decisions: seq<Decision>)
    requires |decisions| == |Outbound(g.transitions, node.id)|
    ensures var next := After(Settle(g, st, node, failed, decisions));
      next.Some? ==>
        && st.active - {node.id} <= next.value.active && next.value.waiting <= st.waiting
        && |next.value.history| == |st.history| + 1
  {
    FireAllKeepsActive(g, Leave(st, node, failed), Outbound(g.transitions, node.id), decisions, 0);
  }

  lemma {:induction false} FireAllKeepsActive(
    g: WorkflowGraph, st: State, ts: seq<Transition>, decisions: seq<Decision>, fired: nat)
    requires |decisions| == |ts|
    ensures match FireAll(g, st, ts, decisions, fired)
      case FiredSome(s, _) => st.active <= s.active && s.waiting <= st.waiting && s.history == st.history
      case BoundExceeded(s, _) => st.active <= s.active && s.waiting <= st.waiting && s.history == st.history
      case ConditionThrew => true
    decreases |ts|
  {
    if ts != [] && decisions[0] == Blocks {
      FireAllKeepsActive(g, st, ts[1..], decisions[1..], fired);
    } else if ts != [] && decisions[0] == Passes && !AtBound(st, ts[0]) {
      FireAllKeepsActive(g, Fire(g, st, ts[0]), ts[1..], decisions[1..], fired + 1);
    }
  }

  // ------------------------------------------------------------------ rounds

  function Runnable(st: State, sats: set<string>): set<string> {
    set id | id in st.active && (id !in st.waiting || id in sats)
  }

  function Ids(steps: seq<Step>): (r: seq<string>)
    ensures |r| == |steps| && forall i :: 0 <= i < |r| ==> r[i] == steps[i].id
  {
    seq(|steps|, i requires 0 <= i < |steps| => steps[i].id)
  }

  predicate Distinct(ids: seq<string>) {
    forall i, j :: 0 <= i < j < |ids| ==> ids[i] != ids[j]
  }

  predicate Within(ids: seq<string>, s: set<string>) {
    forall i :: 0 <= i < |ids| ==> ids[i] in s
  }

  /** Executes the first so many of what is runnable at the start, in the order of ids. */
  ghost predicate IsRoundPart(st: State, steps: seq<Step>) {
    && Ids(steps) <= Sorted(Runnable(st, {}))
    && forall i :: 0 <= i < |steps| ==> !steps[i].Resumes?
  }

  /** Every step lets the tick go on. */
  predicate GoesOn(g: WorkflowGraph, st: State, steps: seq<Step>) {
    if steps == [] then true
    else
      var front, last := steps[..|steps| - 1], steps[|steps| - 1];
      && GoesOn(g, st, front) && RunTo(g, st, front).Some?
      && var s := RunTo(g, st, front).value;
         Fits(g, s, last) && (last.Settles? ==> ControlOf(g, s, last).Continue?)
  }

  /** One round: all that is runnable is executed, and the tick goes on. */
  ghost predicate RoundTo(g: WorkflowGraph, a: State, b: State) {
    exists steps :: FullRound(g, a, b, steps)
  }

  ghost predicate FullRound(g: WorkflowGraph, a: State, b: State, steps: seq<Step>) {
    && steps != [] && IsRoundPart(a, steps) && Ids(steps) == Sorted(Runnable(a, {}))
    && GoesOn(g, a, steps) && RunTo(g, a, steps) == Some(b)
  }

  /** In a round from here a terminal node settles. */
  ghost predicate RoundEnds(g: WorkflowGraph, a: State, outcome: TerminalOutcome) {
    exists steps, last :: LastRound(g, a, steps, last, outcome)
  }

  ghost predicate LastRound(g: WorkflowGraph, a: State, steps: seq<Step>, last: Step, outcome: TerminalOutcome) {
    && IsRoundPart(a, steps + [last]) && GoesOn(g, a, steps) && RunTo(g, a, steps).Some?
    && EndsAt(g, RunTo(g, a, steps).value, last, outcome)
  }

  predicate EndsAt(g: WorkflowGraph, st: State, step: Step, outcome: TerminalOutcome) {
    && Fits(g, st, step) && step.Settles?
    && ControlOf(g, st, step).Terminal? && ControlOf(g, st, step).outcome == outcome
  }

  ghost predicate RoundAt(g: WorkflowGraph, states: seq<State>, i: nat) {
    0 < i < |states| && RoundTo(g, states[i - 1], states[i])
  }

  /** The states between the rounds of a tick. */
  ghost predicate Rounds(g: WorkflowGraph, states: seq<State>) {
    states != [] && forall i: nat :: 0 < i < |states| ==> RoundAt(g, states, i)
  }

  ghost predicate EndsAfter(g: WorkflowGraph, a: State, n: nat, outcome: TerminalOutcome) {
    exists states :: Rounds(g, states) && states[0] == a && |states| == n + 1 && RoundEnds(g, states[n], outcome)
  }

  /** A tick from here that nobody answers can end at a terminal node of that outcome. */
  ghost predicate MayEnd(g: WorkflowGraph, a: State, outcome: TerminalOutcome) {
    exists n: nat :: EndsAfter(g, a, n, outcome)
  }

  lemma {:induction false} RoundIsOfRunnable(g: WorkflowGraph, states: seq<State>, i: nat)
    requires RoundAt(g, states, i)
    ensures Runnable(states[i - 1], {}) != {}
  {
    var steps :| FullRound(g, states[i - 1], states[i], steps);
    assert Ids(steps)[0] in Runnable(states[i - 1], {});
  }

  lemma {:induction false} EndIsOfRunnable(g: WorkflowGraph, a: State, outcome: TerminalOutcome)
    requires RoundEnds(g, a, outcome)
    ensures Runnable(a, {}) != {}
  {
    var steps, last :| LastRound(g, a, steps, last, outcome);
    assert Ids(steps + [last])[0] in Runnable(a, {});
  }

  lemma {:induction false} RoundsAreOfRunnable(g: WorkflowGraph, states: seq<State>, outcome: TerminalOutcome)
    requires Rounds(g, states) && RoundEnds(g, states[|states| - 1], outcome)
    ensures Runnable(states[0], {}) != {}
  {
    if |states| > 1 {
      assert RoundAt(g, states, 1);
      RoundIsOfRunnable(g, states, 1);
    } else {
      EndIsOfRunnable(g, states[0], outcome);
    }
  }

  /** Where nothing is runnable a tick that nobody answers does not get to a terminal node. */
  lemma {:induction false} NothingRunnableNoEnd(g: WorkflowGraph, a: State, outcome: TerminalOutcome)
    requires Runnable(a, {}) == {}
    ensures !MayEnd(g, a, outcome)
  {
    if n: nat :| EndsAfter(g, a, n, outcome) {
      var states :| Rounds(g, states) && states[0] == a && |states| == n + 1 && RoundEnds(g, states[n], outcome);
      RoundsAreOfRunnable(g, states, outcome);
    }
  }

  // ------------------------------------------------------- how many rounds

  /** Whoever has not settled is suspended. */
  ghost predicate AllSuspended(a: State, steps: seq<Step>, b: State) {
    b.active == a.active && a.waiting <= b.waiting && Within(Ids(steps), b.waiting)
  }

  lemma {:induction false} OneMoreSuspended(a: State, front: seq<Step>, s: State, last: Step, b: State)
    requires AllSuspended(a, front, s) && b.active == s.active && b.waiting == s.waiting + {last.id}
    ensures AllSuspended(a, front + [last], b)
  {
  }

  /** What a part of a round has done so far: it has settled somebody, or all are suspended. */
  lemma {:induction false} PartProgresses(g: WorkflowGraph, a: State, steps: seq<Step>)
    requires RunTo(g, a, steps).Some? && forall i :: 0 <= i < |steps| ==> !steps[i].Resumes?
    ensures var b := RunTo(g, a, steps).value;
      |b.history| > |a.history| || (|b.history| == |a.history| && AllSuspended(a, steps, b))
  {
    if steps != [] {
      var front, last := steps[..|steps| - 1], steps[|steps| - 1];
      PartProgresses(g, a, front);
      var s := RunTo(g, a, front).value;
      if last.Settles? {
        SettleKeepsOthersActive(g, s, FindNode(g.nodes, last.id).value, last.failed, last.decisions);
      } else if |s.history| == |a.history| {
        OneMoreSuspended(a, front, s, last, RunTo(g, a, steps).value);
        assert front + [last] == steps;
      }
    }
  }

  /** A round settles somebody or leaves nothing runnable. */
  lemma {:induction false} RoundProgresses(g: WorkflowGraph, states: seq<State>, i: nat)
    requires RoundAt(g, states, i)
    ensures |states[i].history| > |states[i - 1].history| ||
      (|states[i].history| == |states[i - 1].history| && Runnable(states[i], {}) == {})
  {
    var a, b := states[i - 1], states[i];
    var steps :| FullRound(g, a, b, steps);
    PartProgresses(g, a, steps);
    if |b.history| == |a.history| {
      forall id | id in b.active
        ensures id in b.waiting
      {
        if id in Runnable(a, {}) {
          assert id in Ids(steps);
        }
      }
    }
  }

  /** Rounds are at most settlements, as long as there is something to execute. */
  lemma {:induction false} RoundsProgress(g: WorkflowGraph, states: seq<State>, n: nat)
    requires Rounds(g, states) && n < |states| && Runnable(states[n], {}) != {}
    ensures n + |states[0].history| <= |states[n].history|
    decreases n
  {
    if n > 0 {
      assert RoundAt(g, states, n);
      RoundIsOfRunnable(g, states, n);
      RoundsProgress(g, states, n - 1);
      RoundProgresses(g, states, n);
    }
  }

  ghost predicate Sound(g: WorkflowGraph, st: State) {
    ReferencesOk(g) && Inv(g, st)
  }

  lemma {:induction false} RoundKeepsSound(g: WorkflowGraph, states: seq<State>, i: nat)
    requires RoundAt(g, states, i) && Sound(g, states[i - 1])
    ensures Sound(g, states[i])
  {
    var steps :| FullRound(g, states[i - 1], states[i], steps);
    RunKeepsInv(g, states[i - 1], steps);
  }

  lemma {:induction false} RoundsKeepSound(g: WorkflowGraph, states: seq<State>, n: nat)
    requires Rounds(g, states) && n < |states| && Sound(g, states[0])
    ensures Sound(g, states[n])
    decreases n
  {
    if n > 0 {
      RoundsKeepSound(g, states, n - 1);
      assert RoundAt(g, states, n);
      RoundKeepsSound(g, states, n);
    }
  }

  /** Whether a terminal node can be reached is settled within as many rounds as the graph can settle nodes. */
  lemma {:induction false} EndsWithinBound(g: WorkflowGraph, a: State, outcome: TerminalOutcome)
    requires GraphOk(g) && Inv(g, a)
    ensures MayEnd(g, a, outcome) <==> exists n: nat :: n + |a.history| <= RunBound(g) && EndsAfter(g, a, n, outcome)
  {
    if n: nat :| EndsAfter(g, a, n, outcome) {
      var states :| Rounds(g, states) && states[0] == a && |states| == n + 1 && RoundEnds(g, states[n], outcome);
      EndIsOfRunnable(g, states[n], outcome);
      RoundsProgress(g, states, n);
      RoundsKeepSound(g, states, n);
      SettlementsWithinBound(g, states[n]);
      assert n + |a.history| <= RunBound(g) && EndsAfter(g, a, n, outcome);
    }
  }

  // --------------------------------------------- where all paths have arrived

  ghost predicate IsTerminalWith(g: WorkflowGraph, id: string, outcome: TerminalOutcome) {
    FindNode(g.nodes, id).Some? && FindNode(g.nodes, id).value.terminal == Some(outcome)
  }

  /** The terminal nodes among what is runnable. */
  function Terminals(g: WorkflowGraph, a: State): set<string> {
    set id | id in Runnable(a, {}) && IsTerminalNode(g, id)
  }

  /** No terminal node lets a tick go on. */
  lemma {:induction false} GoesOnWithoutTerminal(g: WorkflowGraph, a: State, steps: seq<Step>)
    requires GoesOn(g, a, steps) && forall i :: 0 <= i < |steps| ==> !steps[i].Resumes?
    ensures forall i :: 0 <= i < |steps| ==> !IsTerminalNode(g, steps[i].id)
  {
    if steps != [] {
      GoesOnWithoutTerminal(g, a, steps[..|steps| - 1]);
    }
  }

  lemma {:induction false} FullRoundWithoutTerminal(g: WorkflowGraph, states: seq<State>)
    requires RoundAt(g, states, 1)
    ensures Terminals(g, states[0]) == {}
  {
    var steps: seq<Step> :| FullRound(g, states[0], states[1], steps);
    GoesOnWithoutTerminal(g, states[0], steps);
    forall id | id in Runnable(states[0], {})
      ensures !IsTerminalNode(g, id)
    {
      assert id in Ids(steps);
    }
  }

  /** In the last round the first so many nodes are not terminal, and the next one is. */
  lemma {:induction false} LastRoundIds(
    g: WorkflowGraph, a: State, steps: seq<Step>, last: Step, outcome: TerminalOutcome)
    requires LastRound(g, a, steps, last, outcome)
    ensures var all := Sorted(Runnable(a, {}));
      && |steps| < |all| && all[|steps|] == last.id && IsTerminalWith(g, last.id, outcome)
      && forall i :: 0 <= i < |steps| ==> !IsTerminalNode(g, all[i])
  {
    var ids, all := Ids(steps + [last]), Sorted(Runnable(a, {}));
    assert forall i :: 0 <= i < |steps| ==> (steps + [last])[i] == steps[i];
    GoesOnWithoutTerminal(g, a, steps);
    assert forall i :: 0 <= i < |ids| ==> all[i] == ids[i];
    assert forall i :: 0 <= i < |steps| ==> all[i] == steps[i].id;
  }

  /** A round that ends the run does so by its first terminal node. */
  lemma {:induction false} FirstTerminalEnds(g: WorkflowGraph, a: State, outcome: TerminalOutcome, first: string)
    requires RoundEnds(g, a, outcome) && IsLeast(Terminals(g, a), first)
    ensures IsTerminalWith(g, first, outcome)
  {
    var steps: seq<Step>, last: Step :| LastRound(g, a, steps, last, outcome);
    LastRoundIds(g, a, steps, last, outcome);
    var all := Sorted(Runnable(a, {}));
    assert all[|steps|] in all;
    FirstListedIsLeast(all, Runnable(a, {}), Terminals(g, a), |steps|);
    LeastIsUnique(Terminals(g, a), first, last.id);
  }

  /** Where a terminal node is runnable a run can end with no outcome but that of the first of them. */
  lemma {:induction false} FirstTerminalDecides(g: WorkflowGraph, a: State, outcome: TerminalOutcome, first: string)
    requires IsLeast(Terminals(g, a), first) && MayEnd(g, a, outcome)
    ensures IsTerminalWith(g, first, outcome)
  {
    var n: nat :| EndsAfter(g, a, n, outcome);
    var states :| Rounds(g, states) && states[0] == a && |states| == n + 1 && RoundEnds(g, states[n], outcome);
    if n > 0 {
      assert RoundAt(g, states, 1);
      FullRoundWithoutTerminal(g, states);
    } else {
      FirstTerminalEnds(g, a, outcome, first);
    }
  }

  function AllPass(n: nat): (decisions: seq<Decision>)
    ensures |decisions| == n && forall i :: 0 <= i < n ==> decisions[i] == Passes
  {
    seq(n, i => Passes)
  }

  lemma {:induction false} LeastTerminalEnds(g: WorkflowGraph, a: State, first: string, outcome: TerminalOutcome)
    requires IsLeast(Runnable(a, {}), first) && IsTerminalWith(g, first, outcome)
    ensures LastRound(g, a, [], Settles(first, false, AllPass(|Outbound(g.transitions, first)|)), outcome)
    ensures MayEnd(g, a, outcome)
  {
    var last := Settles(first, false, AllPass(|Outbound(g.transitions, first)|));
    LeastIsUnique(Runnable(a, {}), first, Sorted(Runnable(a, {}))[0]);
    assert [] + [last] == [last] && Ids([last]) == [first];
    assert LastRound(g, a, [], last, outcome);
    assert Rounds(g, [a]) && [a][0] == a && |[a]| == 0 + 1;
    assert EndsAfter(g, a, 0, outcome);
  }

  /** Where the first that is runnable is a terminal node, as when all paths have arrived, it alone decides. */
  lemma {:induction false} LeastTerminalDecides(g: WorkflowGraph, a: State, outcome: TerminalOutcome, first: string)
    requires IsLeast(Runnable(a, {}), first) && IsTerminalNode(g, first)
    ensures MayEnd(g, a, outcome) <==> IsTerminalWith(g, first, outcome)
  {
    if MayEnd(g, a, outcome) {
      assert IsLeast(Terminals(g, a), first);
      FirstTerminalDecides(g, a, outcome, first);
    }
    if IsTerminalWith(g, first, outcome) {
      LeastTerminalEnds(g, a, first, outcome);
    }
  }
}
