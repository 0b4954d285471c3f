/** Workflow graphs: nodes with joins, transitions with loop bounds. */
module GraphModel {
  import opened Wrappers
  import opened Digraph

  datatype JoinMode = AnyOf | AllOf | MinOf

  datatype Join = Join(mode: JoinMode, n: Option<int>)

  datatype TerminalOutcome = CompletedOutcome | FailedOutcome | BlockedOutcome

  /** A node: terminal or not, its declared join and its local retry limit. */
  datatype Node = Node(id: string, terminal: Option<TerminalOutcome>, join: Option<Join>, maxAttempts: Option<int>)

  /** A transition without a condition always passes. */
  datatype Transition = Transition(id: string, from: string, to: string, loopBound: Option<int>, conditional: bool)

  datatype WorkflowGraph = WorkflowGraph(entry: string, nodes: seq<Node>, transitions: seq<Transition>)

  function NodeIds(nodes: seq<Node>): set<string> {
    set i | 0 <= i < |nodes| :: nodes[i].id
  }

  /** The targets of the transitions out of a node, in declaration order. */
  function Targets(ts: seq<Transition>, from: string): seq<string> {
    if ts == [] then []
    else if ts[0].from == from then [ts[0].to] + Targets(ts[1..], from)
    else Targets(ts[1..], from)
  }

  predicate Connects(ts: seq<Transition>, a: string, b: string) {
    exists i :: 0 <= i < |ts| && ts[i].from == a && ts[i].to == b
  }

  /** The adjacency lists have exactly the declared transitions as edges. */
  ghost predicate IsOutgoing(ts: seq<Transition>, outgoing: Graph) {
    forall a, b :: Edge(outgoing, a, b) <==> Connects(ts, a, b)
  }

  /** The outgoing map: every source with its targets. */
  function OutgoingOf(ts: seq<Transition>): (out: Graph)
    ensures IsOutgoing(ts, out)
  {
    var out := map a | a in (set i | 0 <= i < |ts| :: ts[i].from) :: Targets(ts, a);
    assert forall a, b :: Edge(out, a, b) <==> Connects(ts, a, b) by {
      forall a, b
        ensures Edge(out, a, b) <==> Connects(ts, a, b)
      {
        TargetsAreConnected(ts, a, b);
      }
    }
    out
  }

  lemma {:induction false} TargetsAreConnected(ts: seq<Transition>, a: string, b: string)
    ensures b in Targets(ts, a) <==> Connects(ts, a, b)
  {
    if ts != [] {
      TargetsAreConnected(ts[1..], a, b);
      if Connects(ts[1..], a, b) {
        var i :| 0 <= i < |ts[1..]| && ts[1..][i].from == a && ts[1..][i].to == b;
        assert ts[i + 1] == ts[1..][i];
      }
      if Connects(ts, a, b) {
        var i :| 0 <= i < |ts| && ts[i].from == a && ts[i].to == b;
        assert i > 0 ==> ts[1..][i - 1] == ts[i];
      }
    }
  }
}
