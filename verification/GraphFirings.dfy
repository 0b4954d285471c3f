/** Whether every firing into a node without a declared join is followed by an execution of its own. */
module GraphFirings {
  import opened Wrappers
  import opened GraphModel
  import opened GraphValidate
  import opened GraphRun
  import opened GraphAccounting
  import opened GraphRounds

  /** How often a node has been executed, retries apart, or is about to be. */
  function Executions(st: State, id: string): nat {
    Departures(st.history, id) + (if id in st.active then 1 else 0)
  }

  /** Firings into a node that were never executed, nor will be. */
  function Shortfall(g: WorkflowGraph, st: State, node: Node): int {
    EntryOffset(g, node.id) + TotalFirings(Inbound(g.transitions, node.id), st.counters) - Executions(st, node.id)
  }

  /** Every inbound firing so far has had its execution of the node, or is about to have it. */
  predicate EveryFiringExecutes(g: WorkflowGraph, st: State, node: Node) {
    Shortfall(g, st, node) == 0
  }

  // ------------------------------------------------- firings that meet it active

  /** How many of the firings of a settlement meet a node while it is active. */
  function MetFiring(g: WorkflowGraph, st: State, ts: seq<Transition>, decisions: seq<Decision>, id: string): nat
    requires |decisions| == |ts|
    decreases |ts|
  {
    if ts == [] || decisions[0] == ThrowsError then 0
    else if decisions[0] == Blocks then MetFiring(g, st, ts[1..], decisions[1..], id)
    else if AtBound(st, ts[0]) then 0
    else
      (if ts[0].to == id && id in st.active then 1 else 0)
      + MetFiring(g, Fire(g, st, ts[0]), ts[1..], decisions[1..], id)
  }

  function MetStep(g: WorkflowGraph, st: State, step: Step, id: string): nat {
    if !Fits(g, st, step) || !step.Settles? then 0
    else
      var node := FindNode(g.nodes, step.id).value;
      if node.terminal.Some? || Retries(node, step.failed, Attempt(st, node.id)) then 0
      else
        MetFiring(g, Leave(st, node, step.failed), Outbound(g.transitions, node.id), step.decisions, id)
  }

  /** How many firings of a run meet a node while it is active. */
  function Met(g: WorkflowGraph, st: State, steps: seq<Step>, id: string): nat {
    if steps == [] then 0
    else
      var front := steps[..|steps| - 1];
      Met(g, st, front, id)
      + match RunTo(g, st, front)
        case None => 0
        case Some(s) => MetStep(g, s, steps[|steps| - 1], id)
  }

  // --------------------------------------------------------- the shortfall is they

  ghost predicate Implicit(g: WorkflowGraph, node: Node) {
    node in g.nodes && node.join.None?
  }

  lemma {:induction false} NodeIsFound(g: WorkflowGraph, node: Node) returns (i: nat)
    requires ReferencesOk(g) && node in g.nodes
    ensures i < |g.nodes| && g.nodes[i] == node && FindNode(g.nodes, node.id) == Some(node)
  {
    i :| 0 <= i < |g.nodes| && g.nodes[i] == node;
    FindNodeAt(g.nodes, i);
  }

  /** A firing into the node executes it, unless it meets it active. */
  lemma {:induction false} FireShortfall(g: WorkflowGraph, st: State, t: Transition, node: Node)
    requires DistinctIds(g.transitions) && t in g.transitions && node.join.None?
    requires JoinAccount(g, st, node) && FindNode(g.nodes, node.id) == Some(node)
    ensures Shortfall(g, Fire(g, st, t), node) ==
      Shortfall(g, st, node) + (if t.to == node.id && node.id in st.active then 1 else 0)
  {
    var inbound := Inbound(g.transitions, node.id);
    if t.to == node.id {
      InboundDistinct(g.transitions, node.id);
      BumpOnce(inbound, st.counters, t);
      FireForm(g, st, t, node);
    } else {
      FireElsewhere(g, st, node, t);
    }
  }

  lemma {:induction false} FireAllShortfall(
    g: WorkflowGraph, st: State, ts: seq<Transition>, decisions: seq<Decision>, fired: nat, node: Node)
    requires ReferencesOk(g) && Implicit(g, node) && JoinAccount(g, st, node)
    requires |decisions| == |ts| && forall t :: t in ts ==> t in g.transitions
    ensures var met := MetFiring(g, st, ts, decisions, node.id);
      match FireAll(g, st, ts, decisions, fired)
      case FiredSome(s, _) => Shortfall(g, s, node) == Shortfall(g, st, node) + met
      case BoundExceeded(s, _) => Shortfall(g, s, node) == Shortfall(g, st, node) + met
      case ConditionThrew => true
    decreases |ts|
  {
    if ts != [] && decisions[0] == Blocks {
      FireAllShortfall(g, st, ts[1..], decisions[1..], fired, node);
    } else if ts != [] && decisions[0] == Passes && !AtBound(st, ts[0]) {
      var i := NodeIsFound(g, node);
      FireShortfall(g, st, ts[0], node);
      FireKeepsJoin(g, st, ts[0], i);
      FireAllShortfall(g, Fire(g, st, ts[0]), ts[1..], decisions[1..], fired + 1, node);
    }
  }

  /** Leaving a node for its transitions changes no shortfall, its own included. */
  lemma {:induction false} LeaveShortfall(g: WorkflowGraph, st: State, left: Node, failed: bool, node: Node)
    requires left.id in st.active && (left.terminal.Some? || !Retries(left, failed, Attempt(st, left.id)))
    ensures Shortfall(g, Leave(st, left, failed), node) == Shortfall(g, st, node)
  {
    var next := Leave(st, left, failed);
    HistoryGrows(st.history, next.history[|st.history|], node.id);
  }

  /** Nor does a retry. */
  lemma {:induction false} RetryShortfall(g: WorkflowGraph, st: State, left: Node, failed: bool, node: Node)
    requires left.id in st.active && left.terminal.None? && Retries(left, failed, Attempt(st, left.id))
    ensures Shortfall(g, Retry(Leave(st, left, failed), left.id), node) == Shortfall(g, st, node)
  {
    var next := Retry(Leave(st, left, failed), left.id);
    HistoryGrows(st.history, next.history[|st.history|], node.id);
  }

  lemma {:induction false} StepShortfall(g: WorkflowGraph, st: State, step: Step, node: Node)
    requires ReferencesOk(g) && Implicit(g, node) && JoinAccount(g, st, node) && Next(g, st, step).Some?
    ensures Shortfall(g, Next(g, st, step).value, node) == Shortfall(g, st, node) + MetStep(g, st, step, node.id)
  {
    if step.Settles? {
      var left := FindNode(g.nodes, step.id).value;
      if left.terminal.None? && Retries(left, step.failed, Attempt(st, left.id)) {
        RetryShortfall(g, st, left, step.failed, node);
      } else {
        LeaveShortfall(g, st, left, step.failed, node);
        FireAllShortfall(
          g, Leave(st, left, step.failed), Outbound(g.transitions, left.id), step.decisions, 0, node);
      }
    }
  }

  lemma {:induction false} StartShortfall(g: WorkflowGraph, node: Node)
    requires ReferencesOk(g) && node in g.nodes
    ensures Shortfall(g, Start(g, Empty()), node) == 0
  {
    FindNodeKnown(g.nodes, g.entry);
    NothingFired(Inbound(g.transitions, node.id));
  }

  lemma {:induction false} RunShortfall(g: WorkflowGraph, st: State, steps: seq<Step>, node: Node)
    requires ReferencesOk(g) && Inv(g, st) && Implicit(g, node) && RunTo(g, st, steps).Some?
    ensures Shortfall(g, RunTo(g, st, steps).value, node) ==
      Shortfall(g, st, node) + Met(g, st, steps, node.id)
  {
    if steps != [] {
      var front := steps[..|steps| - 1];
      RunShortfall(g, st, front, node);
      RunKeepsInv(g, st, front);
      var i := NodeIsFound(g, node);
      assert JoinAccount(g, RunTo(g, st, front).value, g.nodes[i]);
      StepShortfall(g, RunTo(g, st, front).value, steps[|steps| - 1], node);
    }
  }

  /**
   * Over a whole run a node without a declared join falls short of one execution per inbound firing
   * by exactly the firings that met it active: the active nodes are a set, so an arrival before the
   * node has settled is counted, never executed, and not made up for by anything later.
   */
  lemma {:induction false} LostFiringsAreThoseMet(g: WorkflowGraph, steps: seq<Step>, node: Node)
    requires ReferencesOk(g) && Implicit(g, node) && RunTo(g, Start(g, Empty()), steps).Some?
    ensures var st := RunTo(g, Start(g, Empty()), steps).value;
      && Shortfall(g, st, node) == Met(g, Start(g, Empty()), steps, node.id)
      && (EveryFiringExecutes(g, st, node) <==> Met(g, Start(g, Empty()), steps, node.id) == 0)
  {
    StartInv(g);
    StartShortfall(g, node);
    RunShortfall(g, Start(g, Empty()), steps, node);
  }
}
