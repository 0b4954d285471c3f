/** The steps of a durable graph run over its persisted state: firing, joining, settling. */
module GraphRun {
  import opened Wrappers
  import opened GraphModel

  datatype NodeResult = NodeResult(nodeId: string, attempt: int, failed: bool, retried: bool)

  /** The part of the persisted run state that decides what executes next. */
  datatype State = State(
    active: set<string>,
    waiting: set<string>,
    counters: map<string, nat>,
    activations: map<string, nat>,
    retries: map<string, nat>,
    history: seq<NodeResult>)

  function Count(m: map<string, nat>, k: string): nat {
    if k in m then m[k] else 0
  }

  function Inbound(ts: seq<Transition>, id: string): (r: seq<Transition>)
    ensures forall t :: t in r <==> t in ts && t.to == id
  {
    if ts == [] then []
    else if ts[0].to == id then [ts[0]] + Inbound(ts[1..], id)
    else Inbound(ts[1..], id)
  }

  function Outbound(ts: seq<Transition>, id: string): (r: seq<Transition>)
    ensures forall t :: t in r <==> t in ts && t.from == id
  {
    if ts == [] then []
    else if ts[0].from == id then [ts[0]] + Outbound(ts[1..], id)
    else Outbound(ts[1..], id)
  }

  // ------------------------------------------------------------------- joins

  function TotalFirings(ts: seq<Transition>, counters: map<string, nat>): nat {
    if ts == [] then 0 else Count(counters, ts[0].id) + TotalFirings(ts[1..], counters)
  }

  function MaxFirings(ts: seq<Transition>, counters: map<string, nat>): nat {
    if ts == [] then 0
    else
      var rest := MaxFirings(ts[1..], counters);
      if Count(counters, ts[0].id) > rest then Count(counters, ts[0].id) else rest
  }

  function FiredCount(ts: seq<Transition>, counters: map<string, nat>): nat {
    if ts == [] then 0 else (if Count(counters, ts[0].id) > 0 then 1 else 0) + FiredCount(ts[1..], counters)
  }

  function MinCount(join: Join, inbound: seq<Transition>): int {
    if join.n.Some? then join.n.value else |inbound|
  }

  /** Whether a node with a declared join is to be activated, having been activated so often. */
  predicate DeclaredJoin(join: Join, inbound: seq<Transition>, counters: map<string, nat>, activated: int) {
    match join.mode
    case AnyOf => MaxFirings(inbound, counters) > activated
    case AllOf => FiredCount(inbound, counters) == |inbound| && activated == 0
    case MinOf => FiredCount(inbound, counters) >= MinCount(join, inbound) && activated == 0
  }

  function EntryOffset(g: WorkflowGraph, id: string): nat {
    if id == g.entry then 1 else 0
  }

  /** The durable engine's join: without a declared one, an activation for every inbound firing. */
  predicate JoinSatisfied(g: WorkflowGraph, node: Node, st: State) {
    var inbound := Inbound(g.transitions, node.id);
    var activated := Count(st.activations, node.id) - EntryOffset(g, node.id);
    if node.join.None? then TotalFirings(inbound, st.counters) > activated
    else DeclaredJoin(node.join.value, inbound, st.counters, activated)
  }

  // ------------------------------------------------------------------- steps

  /** Of two nodes with one id the later one is found. */
  function FindNode(nodes: seq<Node>, id: string): (r: Option<Node>)
    ensures r.Some? ==> r.value in nodes && r.value.id == id
    ensures r.None? ==> forall i :: 0 <= i < |nodes| ==> nodes[i].id != id
  {
    if nodes == [] then None
    else if nodes[|nodes| - 1].id == id then Some(nodes[|nodes| - 1])
    else FindNode(nodes[..|nodes| - 1], id)
  }

  predicate IsTerminalNode(g: WorkflowGraph, id: string) {
    FindNode(g.nodes, id).Some? && FindNode(g.nodes, id).value.terminal.Some?
  }

  function Activate(g: WorkflowGraph, st: State, id: string): State {
    if FindNode(g.nodes, id).None? then st
    else
      st.(activations := st.activations[id := Count(st.activations, id) + 1],
          active := st.active + {id},
          waiting := st.waiting - {id})
  }

  /** A fresh run activates the entry. */
  function Start(g: WorkflowGraph, st: State): State {
    if st.active == {} && st.waiting == {} && st.activations == map[] then Activate(g, st, g.entry) else st
  }

  function Fire(g: WorkflowGraph, st: State, t: Transition): State {
    var fired := st.(counters := st.counters[t.id := Count(st.counters, t.id) + 1]);
    match FindNode(g.nodes, t.to)
    case None => fired
    case Some(target) => if JoinSatisfied(g, target, fired) then Activate(g, fired, t.to) else fired
  }

  /** What a transition's condition makes of a settlement. */
  datatype Decision = Passes | Blocks | ThrowsError

  /** Only what has a condition can be blocked, or throw. */
  predicate DecisionsFit(ts: seq<Transition>, decisions: seq<Decision>) {
    && |decisions| == |ts|
    && forall i :: 0 <= i < |ts| && !ts[i].conditional ==> decisions[i] == Passes
  }

  datatype Firing =
    | FiredSome(st: State, count: nat)
    | BoundExceeded(st: State, transition: string)
    | ConditionThrew

  predicate AtBound(st: State, t: Transition) {
    t.loopBound.Some? && Count(st.counters, t.id) >= t.loopBound.value
  }

  /** Fires the transitions whose conditions pass, in order, stopping at a used-up loop bound. */
  function FireAll(g: WorkflowGraph, st: State, ts: seq<Transition>, decisions: seq<Decision>, fired: nat): Firing
    requires |decisions| == |ts|
    decreases |ts|
  {
    if ts == [] then FiredSome(st, fired)
    else if decisions[0] == ThrowsError then ConditionThrew
    else if decisions[0] == Blocks then FireAll(g, st, ts[1..], decisions[1..], fired)
    else if AtBound(st, ts[0]) then BoundExceeded(st, ts[0].id)
    else FireAll(g, Fire(g, st, ts[0]), ts[1..], decisions[1..], fired + 1)
  }

  function Attempt(st: State, id: string): int {
    (if id in st.activations then st.activations[id] else 1) + Count(st.retries, id)
  }

  predicate Retries(node: Node, failed: bool, attempt: int) {
    failed && node.maxAttempts.Some? && attempt < node.maxAttempts.value
  }

  /** The bookkeeping of a settlement before any transition fires. */
  function Leave(st: State, node: Node, failed: bool): State {
    st.(active := st.active - {node.id},
        waiting := st.waiting - {node.id},
        history := st.history +
          [NodeResult(node.id, Attempt(st, node.id), failed,
                      node.terminal.None? && Retries(node, failed, Attempt(st, node.id)))])
  }

  /** A local retry re-activates the node without touching the join accounting. */
  function Retry(st: State, id: string): State {
    st.(retries := st.retries[id := Count(st.retries, id) + 1],
        active := st.active + {id},
        waiting := st.waiting - {id})
  }

  datatype Control =
    | Continue(st: State)
    | Terminal(st: State, outcome: TerminalOutcome)
    | LoopBoundExceeded(st: State, transition: string)
    | NoTransition(st: State)
    | TickThrew

  function Settle(g: WorkflowGraph, st: State, node: Node, failed: bool, decisions: seq<Decision>): Control
    requires |decisions| == |Outbound(g.transitions, node.id)|
  {
    var left := Leave(st, node, failed);
    if node.terminal.Some? then Terminal(left, node.terminal.value)
    else if Retries(node, failed, Attempt(st, node.id)) then Continue(Retry(left, node.id))
    else
      match FireAll(g, left, Outbound(g.transitions, node.id), decisions, 0)
      case ConditionThrew => TickThrew
      case BoundExceeded(s, t) => LoopBoundExceeded(s, t)
      case FiredSome(s, count) => if count == 0 && failed then NoTransition(s) else Continue(s)
  }
}
