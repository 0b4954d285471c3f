/** How often a validated graph can settle: a bound read off its transitions. */
module GraphBound {
  import opened Wrappers
  import opened Digraph
  import opened GraphModel
  import opened GraphValidate
  import opened GraphRun
  import opened GraphAccounting

  /** Transitions without a bound go upward in rank. */
  ghost predicate IsUnboundedRanking(g: WorkflowGraph, rank: map<string, nat>) {
    forall i :: 0 <= i < |g.transitions| && g.transitions[i].loopBound.None? ==>
      && g.transitions[i].from in rank && g.transitions[i].to in rank
      && rank[g.transitions[i].from] < rank[g.transitions[i].to]
  }

  function RankOf(rank: map<string, nat>, id: string): nat {
    if id in rank then rank[id] else 0
  }

  /** How often a node can be activated: once as entry, and as often as its inbound transitions fire. */
  ghost function NodeBound(g: WorkflowGraph, rank: map<string, nat>, id: string): nat
    requires IsUnboundedRanking(g, rank)
    decreases RankOf(rank, id), 1, 0
  {
    EntryOffset(g, id) + FiringBound(g, rank, Inbound(g.transitions, id), id)
  }

  /** A bounded transition fires up to its bound, an unbounded one as often as its source departs. */
  ghost function FiringBound(g: WorkflowGraph, rank: map<string, nat>, ts: seq<Transition>, id: string): nat
    requires IsUnboundedRanking(g, rank) && forall t :: t in ts ==> t in g.transitions && t.to == id
    decreases RankOf(rank, id), 0, |ts|
  {
    if ts == [] then 0
    else
      var first: nat :=
        if ts[0].loopBound.None? then NodeBound(g, rank, ts[0].from)
        else if ts[0].loopBound.value < 0 then 0
        else ts[0].loopBound.value;
      first + FiringBound(g, rank, ts[1..], id)
  }

  ghost function TotalBound(g: WorkflowGraph, rank: map<string, nat>, nodes: seq<Node>): nat
    requires IsUnboundedRanking(g, rank)
  {
    if nodes == [] then 0
    else NodeBound(g, rank, nodes[0].id) + RetryLimit(nodes[0]) + TotalBound(g, rank, nodes[1..])
  }

  /** The bound does not depend on the ranking that shows the recursion well founded. */
  lemma {:induction false} NodeBoundUnique(g: WorkflowGraph, r0: map<string, nat>, r1: map<string, nat>, id: string)
    requires IsUnboundedRanking(g, r0) && IsUnboundedRanking(g, r1)
    ensures NodeBound(g, r0, id) == NodeBound(g, r1, id)
    decreases RankOf(r0, id), 1, 0
  {
    FiringBoundUnique(g, r0, r1, Inbound(g.transitions, id), id);
  }

  lemma {:induction false} FiringBoundUnique(
    g: WorkflowGraph, r0: map<string, nat>, r1: map<string, nat>, ts: seq<Transition>, id: string)
    requires IsUnboundedRanking(g, r0) && IsUnboundedRanking(g, r1)
    requires forall t :: t in ts ==> t in g.transitions && t.to == id
    ensures FiringBound(g, r0, ts, id) == FiringBound(g, r1, ts, id)
    decreases RankOf(r0, id), 0, |ts|
  {
    if ts != [] {
      if ts[0].loopBound.None? {
        NodeBoundUnique(g, r0, r1, ts[0].from);
      }
      FiringBoundUnique(g, r0, r1, ts[1..], id);
    }
  }

  lemma {:induction false} TotalBoundUnique(g: WorkflowGraph, r0: map<string, nat>, r1: map<string, nat>, nodes: seq<Node>)
    requires IsUnboundedRanking(g, r0) && IsUnboundedRanking(g, r1)
    ensures TotalBound(g, r0, nodes) == TotalBound(g, r1, nodes)
  {
    if nodes != [] {
      NodeBoundUnique(g, r0, r1, nodes[0].id);
      TotalBoundUnique(g, r0, r1, nodes[1..]);
    }
  }

  // ----------------------------------------- bounded cycles make the bound exist

  function Unbounded(ts: seq<Transition>): (r: seq<Transition>)
    ensures forall t :: t in r <==> t in ts && t.loopBound.None?
  {
    if ts == [] then []
    else if ts[0].loopBound.None? then [ts[0]] + Unbounded(ts[1..])
    else Unbounded(ts[1..])
  }

  lemma {:induction false} UnboundedEdge(ts: seq<Transition>, a: string, b: string) returns (t: Transition)
    requires Edge(OutgoingOf(Unbounded(ts)), a, b)
    ensures t in ts && t.loopBound.None? && t.from == a && t.to == b
    ensures Edge(OutgoingOf(ts), a, b)
  {
    assert Connects(Unbounded(ts), a, b);
    var k :| 0 <= k < |Unbounded(ts)| && Unbounded(ts)[k].from == a && Unbounded(ts)[k].to == b;
    t := Unbounded(ts)[k];
    var i :| 0 <= i < |ts| && ts[i] == t;
    assert Connects(ts, a, b);
  }

  lemma {:induction false} UnboundedWalk(ts: seq<Transition>, p: seq<string>)
    requires IsWalk(OutgoingOf(Unbounded(ts)), p)
    ensures IsWalk(OutgoingOf(ts), p)
  {
    forall i | 0 <= i < |p| - 1
      ensures Edge(OutgoingOf(ts), p[i], p[i + 1])
    {
      var _ := UnboundedEdge(ts, p[i], p[i + 1]);
    }
  }

  /** A closed walk of unbounded transitions puts its first one on a cycle. */
  lemma {:induction false} ClosedWalkHasUnbounded(ts: seq<Transition>, p: seq<string>) returns (i: nat)
    requires IsClosedWalk(OutgoingOf(Unbounded(ts)), p)
    ensures i < |ts| && ts[i].loopBound.None? && Reaches(OutgoingOf(ts), ts[i].to, ts[i].from)
  {
    var t := UnboundedEdge(ts, p[0], p[1]);
    i :| 0 <= i < |ts| && ts[i] == t;
    WalkTail(OutgoingOf(Unbounded(ts)), p);
    UnboundedWalk(ts, p[1..]);
    assert p[1..][0] == t.to && p[1..][|p[1..]| - 1] == t.from;
  }

  lemma {:induction false} UnboundedIsAcyclic(g: WorkflowGraph)
    requires GraphOk(g)
    ensures Acyclic(OutgoingOf(Unbounded(g.transitions)))
  {
    forall p
      ensures !IsClosedWalk(OutgoingOf(Unbounded(g.transitions)), p)
    {
      if IsClosedWalk(OutgoingOf(Unbounded(g.transitions)), p) {
        var i := ClosedWalkHasUnbounded(g.transitions, p);
      }
    }
  }

  lemma {:induction false} TopOf(rank: map<string, nat>) returns (top: nat)
    ensures forall id :: id in rank ==> rank[id] <= top
    decreases |rank|
  {
    top := 0;
    if id :| id in rank {
      var rest := rank - {id};
      assert rest.Keys == rank.Keys - {id};
      assert |rest.Keys| < |rank.Keys|;
      var below := TopOf(rest);
      top := if rank[id] < below then below else rank[id];
      assert forall x :: x in rank ==> x == id || (x in rest && rest[x] == rank[x]);
    }
  }

  lemma {:induction false} UnboundedRankingExists(g: WorkflowGraph) returns (rank: map<string, nat>)
    requires GraphOk(g)
    ensures IsUnboundedRanking(g, rank)
  {
    var h := OutgoingOf(Unbounded(g.transitions));
    UnboundedIsAcyclic(g);
    forall a, b | Edge(h, a, b)
      ensures a in NodeIds(g.nodes) && b in NodeIds(g.nodes)
    {
      var t := UnboundedEdge(g.transitions, a, b);
      var k :| 0 <= k < |g.transitions| && g.transitions[k] == t;
    }
    var down := AcyclicHasRanking(h, NodeIds(g.nodes));
    var top := TopOf(down);
    rank := map id | id in down :: top - down[id];
    forall i | 0 <= i < |g.transitions| && g.transitions[i].loopBound.None?
      ensures g.transitions[i].from in rank && g.transitions[i].to in rank
      ensures rank[g.transitions[i].from] < rank[g.transitions[i].to]
    {
      var t := g.transitions[i];
      assert t in Unbounded(g.transitions);
      var k :| 0 <= k < |Unbounded(g.transitions)| && Unbounded(g.transitions)[k] == t;
      assert Connects(Unbounded(g.transitions), t.from, t.to);
      assert Edge(h, t.from, t.to);
    }
  }

  /** The number of settlements a validated graph can come to, retries included. */
  ghost function RunBound(g: WorkflowGraph): nat
    requires GraphOk(g)
  {
    assert exists rank :: IsUnboundedRanking(g, rank) by {
      var found := UnboundedRankingExists(g);
    }
    var rank :| IsUnboundedRanking(g, rank);
    TotalBound(g, rank, g.nodes)
  }

  // --------------------------------------------------- every run stays within it

  lemma {:induction false} DueWithinFirings(node: Node, inbound: seq<Transition>, counters: map<string, nat>)
    ensures DueActivations(node, inbound, counters) <= TotalFirings(inbound, counters)
  {
    FiredCountBounded(inbound, counters);
  }

  lemma {:induction false} ActivationsWithinBound(g: WorkflowGraph, rank: map<string, nat>, st: State, i: nat)
    requires ReferencesOk(g) && IsUnboundedRanking(g, rank) && Inv(g, st) && i < |g.nodes|
    ensures Count(st.activations, g.nodes[i].id) <= NodeBound(g, rank, g.nodes[i].id)
    decreases RankOf(rank, g.nodes[i].id), 1, 0
  {
    var node := g.nodes[i];
    var inbound := Inbound(g.transitions, node.id);
    assert JoinAccount(g, st, node);
    DueWithinFirings(node, inbound, st.counters);
    FiringsWithinBound(g, rank, st, inbound, node.id);
  }

  /** A transition fires no more often than its source is activated. */
  lemma {:induction false} CountedBySource(g: WorkflowGraph, st: State, t: Transition) returns (j: nat)
    requires ReferencesOk(g) && Inv(g, st) && t in g.transitions
    ensures j < |g.nodes| && g.nodes[j].id == t.from
    ensures t.loopBound.Some? ==> Count(st.counters, t.id) <= t.loopBound.value
    ensures Count(st.counters, t.id) <= Count(st.activations, t.from)
  {
    var k :| 0 <= k < |g.transitions| && g.transitions[k] == t;
    assert CounterAccount(st, g.transitions[k]);
    j :| 0 <= j < |g.nodes| && g.nodes[j].id == t.from;
    assert VisitAccount(st, g.nodes[j]);
  }

  lemma {:induction false} FiringsWithinBound(
    g: WorkflowGraph, rank: map<string, nat>, st: State, ts: seq<Transition>, id: string)
    requires ReferencesOk(g) && IsUnboundedRanking(g, rank) && Inv(g, st)
    requires forall t :: t in ts ==> t in g.transitions && t.to == id
    ensures TotalFirings(ts, st.counters) <= FiringBound(g, rank, ts, id)
    decreases RankOf(rank, id), 0, |ts|
  {
    if ts != [] {
      assert ts[0] in ts;
      var j := CountedBySource(g, st, ts[0]);
      if ts[0].loopBound.None? {
        ActivationsWithinBound(g, rank, st, j);
      }
      FiringsWithinBound(g, rank, st, ts[1..], id);
    }
  }

  function Visits(nodes: seq<Node>, history: seq<NodeResult>): nat {
    if nodes == [] then 0
    else Departures(history, nodes[0].id) + RetriedTimes(history, nodes[0].id) + Visits(nodes[1..], history)
  }

  lemma {:induction false} VisitCountedOnce(nodes: seq<Node>, history: seq<NodeResult>, r: NodeResult)
    requires forall i, j :: 0 <= i < j < |nodes| ==> nodes[i].id != nodes[j].id
    ensures Visits(nodes, history + [r]) ==
      Visits(nodes, history) + (if exists i :: 0 <= i < |nodes| && nodes[i].id == r.nodeId then 1 else 0)
  {
    if nodes != [] {
      HistoryGrows(history, r, nodes[0].id);
      VisitCountedOnce(nodes[1..], history, r);
      if nodes[0].id == r.nodeId {
        assert forall i :: 0 <= i < |nodes[1..]| ==> nodes[1..][i].id == nodes[i + 1].id;
      } else if i :| 0 <= i < |nodes| && nodes[i].id == r.nodeId {
        assert nodes[1..][i - 1].id == r.nodeId;
      }
    }
  }

  lemma {:induction false} HistoryIsVisits(nodes: seq<Node>, history: seq<NodeResult>)
    requires forall i, j :: 0 <= i < j < |nodes| ==> nodes[i].id != nodes[j].id
    requires forall i :: 0 <= i < |history| ==> history[i].nodeId in NodeIds(nodes)
    ensures Visits(nodes, history) == |history|
    decreases |history|
  {
    if history == [] {
      NoVisits(nodes);
    } else {
      var k := |history| - 1;
      HistoryIsVisits(nodes, history[..k]);
      VisitCountedOnce(nodes, history[..k], history[k]);
      assert history[..k] + [history[k]] == history;
      assert history[k].nodeId in NodeIds(nodes);
    }
  }

  lemma {:induction false} NoVisits(nodes: seq<Node>)
    ensures Visits(nodes, []) == 0
  {
    if nodes != [] {
      NoVisits(nodes[1..]);
    }
  }

  lemma {:induction false} NodeVisitsWithinBound(g: WorkflowGraph, rank: map<string, nat>, st: State, node: Node)
    requires ReferencesOk(g) && IsUnboundedRanking(g, rank) && Inv(g, st) && node in g.nodes
    ensures Departures(st.history, node.id) + RetriedTimes(st.history, node.id) <=
      NodeBound(g, rank, node.id) + RetryLimit(node)
  {
    var i :| 0 <= i < |g.nodes| && g.nodes[i] == node;
    assert VisitAccount(st, g.nodes[i]);
    ActivationsWithinBound(g, rank, st, i);
  }

  lemma {:induction false} VisitsWithinBound(
    g: WorkflowGraph, rank: map<string, nat>, st: State, nodes: seq<Node>)
    requires ReferencesOk(g) && IsUnboundedRanking(g, rank) && Inv(g, st)
    requires forall n :: n in nodes ==> n in g.nodes
    ensures Visits(nodes, st.history) <= TotalBound(g, rank, nodes)
  {
    if nodes != [] {
      assert nodes[0] in nodes;
      NodeVisitsWithinBound(g, rank, st, nodes[0]);
      VisitsWithinBound(g, rank, st, nodes[1..]);
    }
  }

  /** However conditions, guards and outcomes fall, a run never settles more often than the bound. */
  lemma {:induction false} SettlementsWithinBound(g: WorkflowGraph, st: State)
    requires GraphOk(g) && Inv(g, st)
    ensures |st.history| <= RunBound(g)
  {
    var rank := UnboundedRankingExists(g);
    HistoryIsVisits(g.nodes, st.history);
    VisitsWithinBound(g, rank, st, g.nodes);
    var chosen :| IsUnboundedRanking(g, chosen) && RunBound(g) == TotalBound(g, chosen, g.nodes);
    TotalBoundUnique(g, rank, chosen, g.nodes);
  }
}
