/** Structural validation of workflow graphs and its two breadth-first searches. */
module GraphValidate {
  import opened Wrappers
  import opened Digraph
  import opened GraphModel

  datatype Issue =
    | DuplicateNode(node: nat)
    | NoEntry
    | DuplicateTransition(transition: nat)
    | UnknownSource(transition: nat)
    | UnknownTarget(transition: nat)
    | BadLoopBound(transition: nat)
    | Unreachable(node: nat)
    | NoReachableTerminal
    | TerminalWithOutgoing(node: nat)
    | JoinInCycle(node: nat)
    | BadMinJoin(node: nat)
    | UnboundedInCycle(transition: nat)

  // ------------------------------------------------------ what the issues mean

  predicate RepeatsNode(g: WorkflowGraph, i: int) {
    0 <= i < |g.nodes| && exists j :: 0 <= j < i && g.nodes[j].id == g.nodes[i].id
  }

  predicate RepeatsTransition(g: WorkflowGraph, i: int) {
    0 <= i < |g.transitions| && exists j :: 0 <= j < i && g.transitions[j].id == g.transitions[i].id
  }

  /** The problems of ids, endpoints and bounds, reported before anything else is looked at. */
  predicate IsReferenceIssue(g: WorkflowGraph, x: Issue) {
    match x
    case DuplicateNode(i) => RepeatsNode(g, i)
    case NoEntry => g.entry !in NodeIds(g.nodes)
    case DuplicateTransition(i) => RepeatsTransition(g, i)
    case UnknownSource(i) => i < |g.transitions| && g.transitions[i].from !in NodeIds(g.nodes)
    case UnknownTarget(i) => i < |g.transitions| && g.transitions[i].to !in NodeIds(g.nodes)
    case BadLoopBound(i) =>
      i < |g.transitions| && g.transitions[i].loopBound.Some? && g.transitions[i].loopBound.value < 1
    case _ => false
  }

  ghost predicate OnCycle(out: Graph, v: string) {
    ReachesPlus(out, v, v)
  }

  predicate Coalesces(node: Node) {
    node.join.Some? && node.join.value.mode != AnyOf
  }

  predicate MinWithoutCount(node: Node) {
    node.join.Some? && node.join.value.mode == MinOf && (node.join.value.n.None? || node.join.value.n.value < 1)
  }

  /** The problems of shape, in terms of reachability along transitions. */
  ghost predicate IsShapeIssue(g: WorkflowGraph, out: Graph, x: Issue) {
    match x
    case Unreachable(i) => i < |g.nodes| && !Reaches(out, g.entry, g.nodes[i].id)
    case NoReachableTerminal =>
      forall i :: 0 <= i < |g.nodes| && g.nodes[i].terminal.Some? ==> !Reaches(out, g.entry, g.nodes[i].id)
    case TerminalWithOutgoing(i) => i < |g.nodes| && g.nodes[i].terminal.Some? && Succ(out, g.nodes[i].id) != []
    case JoinInCycle(i) => i < |g.nodes| && Coalesces(g.nodes[i]) && OnCycle(out, g.nodes[i].id)
    case BadMinJoin(i) => i < |g.nodes| && MinWithoutCount(g.nodes[i])
    case UnboundedInCycle(i) =>
      && i < |g.transitions|
      && g.transitions[i].loopBound.None?
      && Reaches(out, g.transitions[i].to, g.transitions[i].from)
    case _ => false
  }

  ghost predicate ReferencesOk(g: WorkflowGraph) {
    && (forall i, j :: 0 <= i < j < |g.nodes| ==> g.nodes[i].id != g.nodes[j].id)
    && g.entry in NodeIds(g.nodes)
    && (forall i, j :: 0 <= i < j < |g.transitions| ==> g.transitions[i].id != g.transitions[j].id)
    && (forall i :: 0 <= i < |g.transitions| ==>
          g.transitions[i].from in NodeIds(g.nodes) && g.transitions[i].to in NodeIds(g.nodes))
    && (forall i :: 0 <= i < |g.transitions| && g.transitions[i].loopBound.Some? ==> g.transitions[i].loopBound.value >= 1)
  }

  /** Every node is reached, some terminal exists, terminals are sinks, joins are legal, cycles are bounded. */
  ghost predicate ShapeOk(g: WorkflowGraph, out: Graph) {
    && (forall i :: 0 <= i < |g.nodes| ==> Reaches(out, g.entry, g.nodes[i].id))
    && (exists i :: 0 <= i < |g.nodes| && g.nodes[i].terminal.Some?)
    && (forall i :: 0 <= i < |g.nodes| && g.nodes[i].terminal.Some? ==> Succ(out, g.nodes[i].id) == [])
    && (forall i :: 0 <= i < |g.nodes| && Coalesces(g.nodes[i]) ==> !OnCycle(out, g.nodes[i].id))
    && (forall i :: 0 <= i < |g.nodes| ==> !MinWithoutCount(g.nodes[i]))
    && (forall i :: 0 <= i < |g.transitions| && g.transitions[i].loopBound.None? ==>
          !Reaches(out, g.transitions[i].to, g.transitions[i].from))
  }

  ghost predicate GraphOk(g: WorkflowGraph) {
    ReferencesOk(g) && ShapeOk(g, OutgoingOf(g.transitions))
  }

  // ------------------------------------------------------------ the two searches

  /** Everything a search from `from` can meet. */
  ghost function Vertices(out: Graph, from: string): set<string> {
    {from} + set v, k | v in out && 0 <= k < |out[v]| :: out[v][k]
  }

  /** Searched so far: nothing but reachable vertices, with every successor of a seen vertex known of. */
  ghost predicate Searching(out: Graph, from: string, seen: set<string>, queue: seq<string>) {
    && (from in seen || from in queue)
    && (forall v :: v in seen ==> Reaches(out, from, v) && v in Vertices(out, from))
    && (forall i :: 0 <= i < |queue| ==> Reaches(out, from, queue[i]) && queue[i] in Vertices(out, from))
    && (forall v, w :: v in seen && Edge(out, v, w) ==> w in seen || w in queue)
  }

  lemma {:induction false} SearchStart(out: Graph, from: string)
    ensures Searching(out, from, {}, [from])
  {
    ReachesSelf(out, from);
  }

  lemma {:induction false} SearchSkip(out: Graph, from: string, seen: set<string>, queue: seq<string>)
    requires Searching(out, from, seen, queue) && queue != [] && queue[0] in seen
    ensures Searching(out, from, seen, queue[1..])
  {
    assert queue == [queue[0]] + queue[1..];
  }

  lemma {:induction false} SearchVisit(out: Graph, from: string, seen: set<string>, queue: seq<string>)
    requires Searching(out, from, seen, queue) && queue != []
    ensures Searching(out, from, seen + {queue[0]}, queue[1..] + Succ(out, queue[0]))
  {
    var current, next := queue[0], queue[1..] + Succ(out, queue[0]);
    assert queue == [queue[0]] + queue[1..];
    forall i | 0 <= i < |next|
      ensures Reaches(out, from, next[i]) && next[i] in Vertices(out, from)
    {
      if i < |queue| - 1 {
        assert next[i] == queue[i + 1];
      } else {
        var k := i - (|queue| - 1);
        assert next[i] == out[current][k] && Edge(out, current, next[i]);
        ReachesEdge(out, current, next[i]);
        ReachesTransitive(out, from, current, next[i]);
      }
    }
  }

  lemma {:induction false} SearchDone(out: Graph, from: string, seen: set<string>)
    requires Searching(out, from, seen, [])
    ensures forall v :: v in seen <==> Reaches(out, from, v)
  {
    forall v | Reaches(out, from, v)
      ensures v in seen
    {
      ClosedSetContainsReachable(out, seen, from, v);
    }
  }

  /** The breadth-first search from the entry finds exactly what the entry reaches. */
  method ReachableFrom(out: Graph, from: string) returns (seen: set<string>)
    ensures forall v :: v in seen <==> Reaches(out, from, v)
  {
    seen := {};
    var queue := [from];
    SearchStart(out, from);
    while |queue| > 0
      invariant Searching(out, from, seen, queue)
      decreases Vertices(out, from) - seen, |queue|
    {
      var current := queue[0];
      if current in seen {
        SearchSkip(out, from, seen, queue);
        queue := queue[1..];
        continue;
      }
      SearchVisit(out, from, seen, queue);
      seen := seen + {current};
      queue := queue[1..] + Succ(out, current);
    }
    SearchDone(out, from, seen);
  }

  /** The search that stops at its target answers reachability. */
  method ReachesBack(out: Graph, from: string, target: string) returns (found: bool)
    ensures found <==> Reaches(out, from, target)
  {
    var seen: set<string> := {};
    var queue := [from];
    SearchStart(out, from);
    while |queue| > 0
      invariant Searching(out, from, seen, queue) && target !in seen
      decreases Vertices(out, from) - seen, |queue|
    {
      var current := queue[0];
      if current in seen {
        SearchSkip(out, from, seen, queue);
        queue := queue[1..];
        continue;
      }
      if current == target {
        return true;
      }
      SearchVisit(out, from, seen, queue);
      seen := seen + {current};
      queue := queue[1..] + Succ(out, current);
    }
    SearchDone(out, from, seen);
    return false;
  }

  // ------------------------------------------------------------- the issue loops

  method ReferenceIssues(g: WorkflowGraph) returns (issues: seq<Issue>)
    ensures forall x :: x in issues <==> IsReferenceIssue(g, x)
  {
    issues := [];
    var nodeIds: set<string> := {};
    for i := 0 to |g.nodes|
      invariant nodeIds == set j | 0 <= j < i :: g.nodes[j].id
      invariant forall x :: x in issues <==> x.DuplicateNode? && x.node < i && RepeatsNode(g, x.node)
    {
      if g.nodes[i].id in nodeIds {
        assert RepeatsNode(g, i);
        issues := issues + [DuplicateNode(i)];
      }
      nodeIds := nodeIds + {g.nodes[i].id};
    }
    if g.entry !in nodeIds {
      issues := issues + [NoEntry];
    }
    var more := TransitionIssues(g, nodeIds);
    issues := issues + more;
  }

  predicate IsTransitionIssue(g: WorkflowGraph, x: Issue) {
    IsReferenceIssue(g, x) && !x.DuplicateNode? && !x.NoEntry?
  }

  method TransitionIssues(g: WorkflowGraph, nodeIds: set<string>) returns (issues: seq<Issue>)
    requires nodeIds == NodeIds(g.nodes)
    ensures forall x :: x in issues <==> IsTransitionIssue(g, x)
  {
    issues := [];
    var transitionIds: set<string> := {};
    for i := 0 to |g.transitions|
      invariant transitionIds == set j | 0 <= j < i :: g.transitions[j].id
      invariant forall x :: x in issues <==> IsTransitionIssue(g, x) && x.transition < i
    {
      var t := g.transitions[i];
      if t.id in transitionIds {
        assert RepeatsTransition(g, i);
        issues := issues + [DuplicateTransition(i)];
      }
      transitionIds := transitionIds + {t.id};
      if t.from !in nodeIds {
        issues := issues + [UnknownSource(i)];
      }
      if t.to !in nodeIds {
        issues := issues + [UnknownTarget(i)];
      }
      if t.loopBound.Some? && t.loopBound.value < 1 {
        issues := issues + [BadLoopBound(i)];
      }
    }
  }

  method BuildOutgoing(ts: seq<Transition>) returns (out: Graph)
    ensures IsOutgoing(ts, out)
  {
    out := map[];
    for i := 0 to |ts|
      invariant forall a, b :: Edge(out, a, b) <==> Connects(ts[..i], a, b)
    {
      var t := ts[i];
      ghost var before := out;
      out := out[t.from := Succ(out, t.from) + [t.to]];
      forall a, b
        ensures Edge(out, a, b) <==> Connects(ts[..i + 1], a, b)
      {
        assert Edge(out, a, b) <==> Edge(before, a, b) || (a == t.from && b == t.to);
        assert ts[..i + 1] == ts[..i] + [t];
        if Connects(ts[..i], a, b) {
          var j :| 0 <= j < |ts[..i]| && ts[..i][j].from == a && ts[..i][j].to == b;
          assert ts[..i + 1][j] == ts[..i][j];
        }
        if a == t.from && b == t.to {
          assert ts[..i + 1][i] == t;
        }
      }
    }
    assert ts[..|ts|] == ts;
  }

  /** Whether some successor of a vertex leads back to it. */
  method IsOnCycle(out: Graph, v: string) returns (onCycle: bool)
    ensures onCycle <==> OnCycle(out, v)
  {
    var nexts := Succ(out, v);
    for i := 0 to |nexts|
      invariant forall k :: 0 <= k < i ==> !Reaches(out, nexts[k], v)
    {
      var back := ReachesBack(out, nexts[i], v);
      if back {
        assert Edge(out, v, nexts[i]);
        return true;
      }
    }
    return false;
  }

  method ReachabilityIssues(g: WorkflowGraph, out: Graph) returns (issues: seq<Issue>)
    ensures forall x :: x in issues <==> IsShapeIssue(g, out, x) && (x.Unreachable? || x.NoReachableTerminal?)
  {
    issues := [];
    var reachable := ReachableFrom(out, g.entry);
    var hasTerminal := false;
    for i := 0 to |g.nodes|
      invariant forall x :: x in issues <==> IsShapeIssue(g, out, x) && x.Unreachable? && x.node < i
      invariant hasTerminal <==> exists j :: 0 <= j < i && g.nodes[j].terminal.Some? && g.nodes[j].id in reachable
    {
      if g.nodes[i].id !in reachable {
        issues := issues + [Unreachable(i)];
      }
      if g.nodes[i].terminal.Some? && g.nodes[i].id in reachable {
        hasTerminal := true;
      }
    }
    if !hasTerminal {
      issues := issues + [NoReachableTerminal];
    }
  }

  method NodeShapeIssues(g: WorkflowGraph, out: Graph) returns (issues: seq<Issue>)
    ensures forall x :: x in issues <==>
      IsShapeIssue(g, out, x) && (x.TerminalWithOutgoing? || x.JoinInCycle? || x.BadMinJoin?)
  {
    issues := [];
    for i := 0 to |g.nodes|
      invariant forall x :: x in issues <==>
        IsShapeIssue(g, out, x) && (x.TerminalWithOutgoing? || x.JoinInCycle? || x.BadMinJoin?) && x.node < i
    {
      var node := g.nodes[i];
      if node.terminal.Some? && Succ(out, node.id) != [] {
        issues := issues + [TerminalWithOutgoing(i)];
      }
      var inCycle := IsOnCycle(out, node.id);
      if Coalesces(node) && inCycle {
        issues := issues + [JoinInCycle(i)];
      }
      if MinWithoutCount(node) {
        issues := issues + [BadMinJoin(i)];
      }
    }
  }

  method BoundIssues(g: WorkflowGraph, out: Graph) returns (issues: seq<Issue>)
    ensures forall x :: x in issues <==> IsShapeIssue(g, out, x) && x.UnboundedInCycle?
  {
    issues := [];
    for i := 0 to |g.transitions|
      invariant forall x :: x in issues <==> IsShapeIssue(g, out, x) && x.UnboundedInCycle? && x.transition < i
    {
      var t := g.transitions[i];
      if t.loopBound.None? {
        var back := ReachesBack(out, t.to, t.from);
        if back {
          issues := issues + [UnboundedInCycle(i)];
        }
      }
    }
  }

  /** Two adjacency lists of the same transitions reach the same. */
  lemma {:induction false} SameReach(ts: seq<Transition>, a: Graph, b: Graph, x: string, y: string)
    requires IsOutgoing(ts, a) && IsOutgoing(ts, b) && Reaches(a, x, y)
    ensures Reaches(b, x, y)
  {
    var p :| IsWalk(a, p) && p[0] == x && p[|p| - 1] == y;
    forall i | 0 <= i < |p| - 1
      ensures Edge(b, p[i], p[i + 1])
    {
      assert Connects(ts, p[i], p[i + 1]);
    }
    assert IsWalk(b, p);
  }

  lemma {:induction false} SameIssues(g: WorkflowGraph, a: Graph, b: Graph, x: Issue)
    requires IsOutgoing(g.transitions, a) && IsOutgoing(g.transitions, b) && IsShapeIssue(g, a, x)
    ensures IsShapeIssue(g, b, x)
  {
    match x
    case Unreachable(i) =>
      if Reaches(b, g.entry, g.nodes[i].id) {
        SameReach(g.transitions, b, a, g.entry, g.nodes[i].id);
      }
    case NoReachableTerminal =>
      forall i | 0 <= i < |g.nodes| && g.nodes[i].terminal.Some?
        ensures !Reaches(b, g.entry, g.nodes[i].id)
      {
        if Reaches(b, g.entry, g.nodes[i].id) {
          SameReach(g.transitions, b, a, g.entry, g.nodes[i].id);
        }
      }
    case TerminalWithOutgoing(i) =>
      var s := Succ(a, g.nodes[i].id);
      assert Edge(a, g.nodes[i].id, s[0]);
      assert Connects(g.transitions, g.nodes[i].id, s[0]);
      assert Edge(b, g.nodes[i].id, s[0]);
    case JoinInCycle(i) =>
      var v := g.nodes[i].id;
      var c :| Edge(a, v, c) && Reaches(a, c, v);
      assert Connects(g.transitions, v, c);
      SameReach(g.transitions, a, b, c, v);
      assert Edge(b, v, c);
    case UnboundedInCycle(i) =>
      SameReach(g.transitions, a, b, g.transitions[i].to, g.transitions[i].from);
    case _ =>
  }

  lemma {:induction false} NoShapeIssueIsOk(g: WorkflowGraph, out: Graph)
    ensures ShapeOk(g, out) <==> forall x :: !IsShapeIssue(g, out, x)
  {
    if forall x :: !IsShapeIssue(g, out, x) {
      forall i | 0 <= i < |g.nodes|
        ensures Reaches(out, g.entry, g.nodes[i].id)
        ensures g.nodes[i].terminal.Some? ==> Succ(out, g.nodes[i].id) == []
        ensures Coalesces(g.nodes[i]) ==> !OnCycle(out, g.nodes[i].id)
        ensures !MinWithoutCount(g.nodes[i])
      {
        assert !IsShapeIssue(g, out, Unreachable(i));
        assert !IsShapeIssue(g, out, TerminalWithOutgoing(i));
        assert !IsShapeIssue(g, out, JoinInCycle(i));
        assert !IsShapeIssue(g, out, BadMinJoin(i));
      }
      forall i | 0 <= i < |g.transitions| && g.transitions[i].loopBound.None?
        ensures !Reaches(out, g.transitions[i].to, g.transitions[i].from)
      {
        assert !IsShapeIssue(g, out, UnboundedInCycle(i));
      }
      assert !IsShapeIssue(g, out, NoReachableTerminal);
    }
  }

  lemma {:induction false} NoReferenceIssueIsOk(g: WorkflowGraph)
    ensures ReferencesOk(g) <==> forall x :: !IsReferenceIssue(g, x)
  {
    if forall x :: !IsReferenceIssue(g, x) {
      forall i, j | 0 <= i < j < |g.nodes|
        ensures g.nodes[i].id != g.nodes[j].id
      {
        assert !IsReferenceIssue(g, DuplicateNode(j));
      }
      forall i, j | 0 <= i < j < |g.transitions|
        ensures g.transitions[i].id != g.transitions[j].id
      {
        assert !IsReferenceIssue(g, DuplicateTransition(j));
      }
      forall i | 0 <= i < |g.transitions|
        ensures g.transitions[i].from in NodeIds(g.nodes) && g.transitions[i].to in NodeIds(g.nodes)
        ensures g.transitions[i].loopBound.Some? ==> g.transitions[i].loopBound.value >= 1
      {
        assert !IsReferenceIssue(g, UnknownSource(i));
        assert !IsReferenceIssue(g, UnknownTarget(i));
        assert !IsReferenceIssue(g, BadLoopBound(i));
      }
      assert !IsReferenceIssue(g, NoEntry);
    }
  }

  lemma {:induction false} SameShape(g: WorkflowGraph, a: Graph, b: Graph)
    requires IsOutgoing(g.transitions, a) && IsOutgoing(g.transitions, b)
    ensures forall x :: IsShapeIssue(g, a, x) <==> IsShapeIssue(g, b, x)
  {
    forall x
      ensures IsShapeIssue(g, a, x) <==> IsShapeIssue(g, b, x)
    {
      if IsShapeIssue(g, a, x) {
        SameIssues(g, a, b, x);
      }
      if IsShapeIssue(g, b, x) {
        SameIssues(g, b, a, x);
      }
    }
  }

  /** Exactly the problems of references are reported, or if there are none those of shape. */
  method ValidateGraph(g: WorkflowGraph) returns (issues: seq<Issue>)
    ensures issues == [] <==> GraphOk(g)
    ensures !ReferencesOk(g) ==> forall x :: x in issues <==> IsReferenceIssue(g, x)
    ensures ReferencesOk(g) ==> forall x :: x in issues <==> IsShapeIssue(g, OutgoingOf(g.transitions), x)
  {
    issues := ReferenceIssues(g);
    NoReferenceIssueIsOk(g);
    if |issues| > 0 {
      assert IsReferenceIssue(g, issues[0]);
      return;
    }
    var out := BuildOutgoing(g.transitions);
    var reach := ReachabilityIssues(g, out);
    var nodes := NodeShapeIssues(g, out);
    var bounds := BoundIssues(g, out);
    issues := reach + nodes + bounds;
    SameShape(g, out, OutgoingOf(g.transitions));
    NoShapeIssueIsOk(g, OutgoingOf(g.transitions));
    if |issues| > 0 {
      assert IsShapeIssue(g, out, issues[0]);
    }
  }
}
