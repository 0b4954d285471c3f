/** What every step of a graph run keeps: join accounting, loop bounds and visits. */
module GraphAccounting {
  import opened Wrappers
  import opened GraphModel
  import opened GraphValidate
  import opened GraphRun

  // ------------------------------------------------------------- the invariant

  /** How many distinct firings a coalescing join waits for; a join is only looked at upon a firing. */
  function Threshold(join: Join, inbound: seq<Transition>): int {
    var wanted := if join.mode == AllOf then |inbound| else MinCount(join, inbound);
    if wanted < 1 then 1 else wanted
  }

  /** How often the firings so far are to have activated a node. */
  function DueActivations(node: Node, inbound: seq<Transition>, counters: map<string, nat>): int {
    if node.join.None? then TotalFirings(inbound, counters)
    else if node.join.value.mode == AnyOf then MaxFirings(inbound, counters)
    else if FiredCount(inbound, counters) >= Threshold(node.join.value, inbound) then 1
    else 0
  }

  ghost predicate JoinAccount(g: WorkflowGraph, st: State, node: Node) {
    Count(st.activations, node.id) ==
      EntryOffset(g, node.id) + DueActivations(node, Inbound(g.transitions, node.id), st.counters)
  }

  /** Settlements of a node that let its transitions fire. */
  function Departures(history: seq<NodeResult>, id: string): nat {
    if history == [] then 0
    else
      var last := history[|history| - 1];
      Departures(history[..|history| - 1], id) + (if last.nodeId == id && !last.retried then 1 else 0)
  }

  function RetriedTimes(history: seq<NodeResult>, id: string): nat {
    if history == [] then 0
    else
      var last := history[|history| - 1];
      RetriedTimes(history[..|history| - 1], id) + (if last.nodeId == id && last.retried then 1 else 0)
  }

  function RetryLimit(node: Node): nat {
    if node.maxAttempts.Some? && node.maxAttempts.value >= 1 then node.maxAttempts.value - 1 else 0
  }

  /** A node leaves no more often than it was activated, and what is active has yet to leave. */
  ghost predicate VisitAccount(st: State, node: Node) {
    && Departures(st.history, node.id) + (if node.id in st.active then 1 else 0) <= Count(st.activations, node.id)
    && RetriedTimes(st.history, node.id) == Count(st.retries, node.id) <= RetryLimit(node)
  }

  ghost predicate CounterAccount(st: State, t: Transition) {
    && (t.loopBound.Some? ==> Count(st.counters, t.id) <= t.loopBound.value)
    && Count(st.counters, t.id) <= Departures(st.history, t.from)
  }

  ghost predicate KnownNodes(g: WorkflowGraph, st: State) {
    && st.active <= NodeIds(g.nodes)
    && st.waiting <= st.active
    && forall i :: 0 <= i < |st.history| ==> st.history[i].nodeId in NodeIds(g.nodes)
  }

  ghost predicate Inv(g: WorkflowGraph, st: State) {
    && KnownNodes(g, st)
    && (forall i :: 0 <= i < |g.nodes| ==> JoinAccount(g, st, g.nodes[i]))
    && (forall i :: 0 <= i < |g.nodes| ==> VisitAccount(st, g.nodes[i]))
    && (forall i :: 0 <= i < |g.transitions| ==> CounterAccount(st, g.transitions[i]))
  }

  function Empty(): State {
    State({}, {}, map[], map[], map[], [])
  }

  // ------------------------------------------------------- counting one firing

  predicate DistinctIds(ts: seq<Transition>) {
    forall i, j :: 0 <= i < j < |ts| ==> ts[i].id != ts[j].id
  }

  function Bump(counters: map<string, nat>, id: string): map<string, nat> {
    counters[id := Count(counters, id) + 1]
  }

  lemma {:induction false} BumpElsewhere(ts: seq<Transition>, counters: map<string, nat>, id: string)
    requires forall t :: t in ts ==> t.id != id
    ensures TotalFirings(ts, Bump(counters, id)) == TotalFirings(ts, counters)
    ensures MaxFirings(ts, Bump(counters, id)) == MaxFirings(ts, counters)
    ensures FiredCount(ts, Bump(counters, id)) == FiredCount(ts, counters)
  {
    if ts != [] {
      BumpElsewhere(ts[1..], counters, id);
    }
  }

  /** One more firing of one of the transitions counts once. */
  lemma {:induction false} BumpOnce(ts: seq<Transition>, counters: map<string, nat>, t: Transition)
    requires DistinctIds(ts) && t in ts
    ensures var c := Count(counters, t.id); var bumped := Bump(counters, t.id);
      && TotalFirings(ts, bumped) == TotalFirings(ts, counters) + 1
      && c <= MaxFirings(ts, counters)
      && MaxFirings(ts, bumped) == (if c == MaxFirings(ts, counters) then c + 1 else MaxFirings(ts, counters))
      && FiredCount(ts, bumped) == FiredCount(ts, counters) + (if c == 0 then 1 else 0)
      && (c > 0 ==> FiredCount(ts, counters) > 0)
  {
    if ts[0] == t {
      assert forall x :: x in ts[1..] ==> x.id != t.id;
      BumpElsewhere(ts[1..], counters, t.id);
    } else {
      var i :| 0 <= i < |ts| && ts[i] == t;
      assert ts[0].id != t.id;
      BumpOnce(ts[1..], counters, t);
    }
  }

  lemma {:induction false} FiredCountBounded(ts: seq<Transition>, counters: map<string, nat>)
    ensures FiredCount(ts, counters) <= |ts|
    ensures FiredCount(ts, counters) <= TotalFirings(ts, counters)
    ensures MaxFirings(ts, counters) <= TotalFirings(ts, counters)
  {
    if ts != [] {
      FiredCountBounded(ts[1..], counters);
    }
  }

  lemma {:induction false} InboundDistinct(ts: seq<Transition>, id: string)
    requires DistinctIds(ts)
    ensures DistinctIds(Inbound(ts, id))
  {
    if ts != [] {
      InboundDistinct(ts[1..], id);
      assert forall t :: t in Inbound(ts[1..], id) ==> t in ts[1..];
    }
  }

  lemma {:induction false} OutboundDistinct(ts: seq<Transition>, id: string)
    requires DistinctIds(ts)
    ensures DistinctIds(Outbound(ts, id))
  {
    if ts != [] {
      OutboundDistinct(ts[1..], id);
      assert forall t :: t in Outbound(ts[1..], id) ==> t in ts[1..];
    }
  }

  lemma {:induction false} SameIdSameTransition(ts: seq<Transition>, a: Transition, b: Transition)
    requires DistinctIds(ts) && a in ts && b in ts && a.id == b.id
    ensures a == b
  {
  }

  lemma {:induction false} FindNodeAt(nodes: seq<Node>, i: nat)
    requires i < |nodes| && forall j, k :: 0 <= j < k < |nodes| ==> nodes[j].id != nodes[k].id
    ensures FindNode(nodes, nodes[i].id) == Some(nodes[i])
  {
    var found := FindNode(nodes, nodes[i].id);
    var j :| 0 <= j < |nodes| && nodes[j] == found.value;
    assert j == i;
  }

  lemma {:induction false} FindNodeKnown(nodes: seq<Node>, id: string)
    requires id in NodeIds(nodes)
    ensures FindNode(nodes, id).Some?
  {
  }

  // -------------------------------------------------- the join decides rightly

  /** Upon a firing into a node the join activates it exactly when one more activation is due. */
  lemma {:induction false} JoinDecidesDue(g: WorkflowGraph, st: State, fired: State, node: Node, t: Transition)
    requires DistinctIds(g.transitions) && t in g.transitions && t.to == node.id
    requires JoinAccount(g, st, node)
    requires fired == st.(counters := Bump(st.counters, t.id))
    ensures var inbound := Inbound(g.transitions, node.id);
      DueActivations(node, inbound, fired.counters) ==
      DueActivations(node, inbound, st.counters) + (if JoinSatisfied(g, node, fired) then 1 else 0)
  {
    var inbound := Inbound(g.transitions, node.id);
    InboundDistinct(g.transitions, node.id);
    BumpOnce(inbound, st.counters, t);
    FiredCountBounded(inbound, st.counters);
    FiredCountBounded(inbound, fired.counters);
    assert |inbound| >= 1;
  }

  lemma {:induction false} FireElsewhere(g: WorkflowGraph, st: State, node: Node, t: Transition)
    requires DistinctIds(g.transitions) && t in g.transitions && t.to != node.id
    ensures DueActivations(node, Inbound(g.transitions, node.id), Bump(st.counters, t.id)) ==
            DueActivations(node, Inbound(g.transitions, node.id), st.counters)
  {
    var inbound := Inbound(g.transitions, node.id);
    forall x | x in inbound
      ensures x.id != t.id
    {
      if x.id == t.id {
        SameIdSameTransition(g.transitions, x, t);
      }
    }
    BumpElsewhere(inbound, st.counters, t.id);
  }

  lemma {:induction false} FireForm(g: WorkflowGraph, st: State, t: Transition, node: Node)
    requires FindNode(g.nodes, t.to) == Some(node)
    ensures var fired := st.(counters := Bump(st.counters, t.id));
      Fire(g, st, t) == if JoinSatisfied(g, node, fired) then Activate(g, fired, node.id) else fired
  {
  }

  lemma {:induction false} FireKeepsJoin(g: WorkflowGraph, st: State, t: Transition, i: nat)
    requires ReferencesOk(g) && t in g.transitions && i < |g.nodes| && JoinAccount(g, st, g.nodes[i])
    ensures JoinAccount(g, Fire(g, st, t), g.nodes[i])
  {
    var node := g.nodes[i];
    var fired := st.(counters := Bump(st.counters, t.id));
    FindNodeKnown(g.nodes, t.to);
    var target := FindNode(g.nodes, t.to).value;
    FireForm(g, st, t, target);
    if t.to == node.id {
      FindNodeAt(g.nodes, i);
      JoinDecidesDue(g, st, fired, node, t);
    } else {
      FireElsewhere(g, st, node, t);
    }
  }

  lemma {:induction false} FireKeepsVisits(g: WorkflowGraph, st: State, t: Transition, node: Node)
    requires VisitAccount(st, node)
    ensures VisitAccount(Fire(g, st, t), node)
  {
  }

  lemma {:induction false} FireKeepsKnown(g: WorkflowGraph, st: State, t: Transition)
    requires KnownNodes(g, st) && ReferencesOk(g) && t in g.transitions
    ensures KnownNodes(g, Fire(g, st, t)) && Fire(g, st, t).history == st.history
    ensures Fire(g, st, t).counters == Bump(st.counters, t.id)
  {
  }

  /** A transition may fire if its bound and its source's departures allow one more. */
  predicate MayFire(st: State, t: Transition) {
    !AtBound(st, t) && Count(st.counters, t.id) + 1 <= Departures(st.history, t.from)
  }

  lemma {:induction false} FireKeepsCounters(g: WorkflowGraph, st: State, t: Transition, other: Transition)
    requires DistinctIds(g.transitions) && t in g.transitions && other in g.transitions
    requires MayFire(st, t) && CounterAccount(st, other)
    requires Fire(g, st, t).counters == Bump(st.counters, t.id) && Fire(g, st, t).history == st.history
    ensures CounterAccount(Fire(g, st, t), other)
  {
    if other.id == t.id {
      SameIdSameTransition(g.transitions, other, t);
    }
  }

  lemma {:induction false} FireKeepsInv(g: WorkflowGraph, st: State, t: Transition)
    requires ReferencesOk(g) && Inv(g, st) && t in g.transitions && MayFire(st, t)
    ensures Inv(g, Fire(g, st, t))
  {
    FireKeepsKnown(g, st, t);
    forall i | 0 <= i < |g.nodes|
      ensures JoinAccount(g, Fire(g, st, t), g.nodes[i]) && VisitAccount(Fire(g, st, t), g.nodes[i])
    {
      FireKeepsJoin(g, st, t, i);
      FireKeepsVisits(g, st, t, g.nodes[i]);
    }
    forall i | 0 <= i < |g.transitions|
      ensures CounterAccount(Fire(g, st, t), g.transitions[i])
    {
      assert CounterAccount(st, g.transitions[i]);
      FireKeepsCounters(g, st, t, g.transitions[i]);
    }
  }

  // --------------------------------------------------------- whole settlements

  /** The transitions still to be looked at in a settlement. */
  ghost predicate Unfired(g: WorkflowGraph, st: State, ts: seq<Transition>) {
    && DistinctIds(ts)
    && forall i :: 0 <= i < |ts| ==>
         ts[i] in g.transitions && Count(st.counters, ts[i].id) + 1 <= Departures(st.history, ts[i].from)
  }

  lemma {:induction false} UnfiredRest(g: WorkflowGraph, st: State, ts: seq<Transition>)
    requires ReferencesOk(g) && KnownNodes(g, st) && Unfired(g, st, ts) && ts != []
    ensures Unfired(g, st, ts[1..]) && Unfired(g, Fire(g, st, ts[0]), ts[1..])
  {
    FireKeepsKnown(g, st, ts[0]);
    assert forall i :: 0 <= i < |ts[1..]| ==> ts[1..][i] == ts[i + 1];
  }

  lemma {:induction false} FireAllKeepsInv(
    g: WorkflowGraph, st: State, ts: seq<Transition>, decisions: seq<Decision>, fired: nat)
    requires ReferencesOk(g) && Inv(g, st) && Unfired(g, st, ts) && |decisions| == |ts|
    ensures match FireAll(g, st, ts, decisions, fired)
      case FiredSome(s, n) => Inv(g, s) && s.history == st.history && n >= fired
      case BoundExceeded(s, t) => Inv(g, s) && s.history == st.history
      case ConditionThrew => true
    decreases |ts|
  {
    if ts != [] && decisions[0] != ThrowsError {
      UnfiredRest(g, st, ts);
      if decisions[0] == Blocks {
        FireAllKeepsInv(g, st, ts[1..], decisions[1..], fired);
      } else if !AtBound(st, ts[0]) {
        FireKeepsInv(g, st, ts[0]);
        FireKeepsKnown(g, st, ts[0]);
        FireAllKeepsInv(g, Fire(g, st, ts[0]), ts[1..], decisions[1..], fired + 1);
      }
    }
  }

  lemma {:induction false} HistoryGrows(history: seq<NodeResult>, r: NodeResult, id: string)
    ensures Departures(history + [r], id) ==
      Departures(history, id) + (if r.nodeId == id && !r.retried then 1 else 0)
    ensures RetriedTimes(history + [r], id) ==
      RetriedTimes(history, id) + (if r.nodeId == id && r.retried then 1 else 0)
  {
    assert (history + [r])[..|history|] == history;
  }

  ghost predicate Settling(g: WorkflowGraph, st: State, node: Node) {
    node in g.nodes && node.id in st.active
  }

  /** Leaving a node for its transitions. */
  lemma {:induction false} LeaveKeepsInv(g: WorkflowGraph, st: State, node: Node, failed: bool)
    requires ReferencesOk(g) && Inv(g, st) && Settling(g, st, node)
    requires node.terminal.None? ==> !Retries(node, failed, Attempt(st, node.id))
    ensures Inv(g, Leave(st, node, failed))
    ensures Unfired(g, Leave(st, node, failed), Outbound(g.transitions, node.id))
  {
    var next := Leave(st, node, failed);
    var r := next.history[|st.history|];
    forall i | 0 <= i < |g.nodes|
      ensures JoinAccount(g, next, g.nodes[i]) && VisitAccount(next, g.nodes[i])
    {
      assert JoinAccount(g, st, g.nodes[i]) && VisitAccount(st, g.nodes[i]);
      HistoryGrows(st.history, r, g.nodes[i].id);
    }
    forall i | 0 <= i < |g.transitions|
      ensures CounterAccount(next, g.transitions[i])
      ensures g.transitions[i].from == node.id ==>
        Count(next.counters, g.transitions[i].id) + 1 <= Departures(next.history, node.id)
    {
      assert CounterAccount(st, g.transitions[i]);
      HistoryGrows(st.history, r, g.transitions[i].from);
    }
    OutboundDistinct(g.transitions, node.id);
  }

  lemma {:induction false} RetryKeepsVisits(st: State, node: Node, other: Node, failed: bool)
    requires VisitAccount(st, other) && node.id in st.active && (other.id == node.id ==> other == node)
    requires node.terminal.None? && Retries(node, failed, Attempt(st, node.id))
    ensures VisitAccount(Retry(Leave(st, node, failed), node.id), other)
  {
    var next := Retry(Leave(st, node, failed), node.id);
    HistoryGrows(st.history, next.history[|st.history|], other.id);
  }

  /** A retry leaves and re-enters at once. */
  lemma {:induction false} RetryKeepsInv(g: WorkflowGraph, st: State, node: Node, failed: bool)
    requires ReferencesOk(g) && Inv(g, st) && Settling(g, st, node)
    requires node.terminal.None? && Retries(node, failed, Attempt(st, node.id))
    ensures Inv(g, Retry(Leave(st, node, failed), node.id))
  {
    var next := Retry(Leave(st, node, failed), node.id);
    var r := next.history[|st.history|];
    var k :| 0 <= k < |g.nodes| && g.nodes[k] == node;
    forall i | 0 <= i < |g.nodes|
      ensures JoinAccount(g, next, g.nodes[i]) && VisitAccount(next, g.nodes[i])
    {
      assert JoinAccount(g, st, g.nodes[i]) && VisitAccount(st, g.nodes[i]);
      if g.nodes[i].id == node.id {
        assert i == k;
      }
      RetryKeepsVisits(st, node, g.nodes[i], failed);
    }
    forall i | 0 <= i < |g.transitions|
      ensures CounterAccount(next, g.transitions[i])
    {
      assert CounterAccount(st, g.transitions[i]);
      HistoryGrows(st.history, r, g.transitions[i].from);
    }
  }

  /** What a settlement leaves, however it ends; nothing if a condition threw. */
  function After(c: Control): Option<State> {
    match c
    case Continue(s) => Some(s)
    case Terminal(s, _) => Some(s)
    case LoopBoundExceeded(s, _) => Some(s)
    case NoTransition(s) => Some(s)
    case TickThrew => None
  }

  /** Every settlement keeps the accounting and makes the history one longer. */
  lemma {:induction false} SettleKeepsInv(g: WorkflowGraph, st: State, node: Node, failed: bool, decisions: seq<Decision>)
    requires ReferencesOk(g) && Inv(g, st) && Settling(g, st, node)
    requires |decisions| == |Outbound(g.transitions, node.id)|
    ensures var next := After(Settle(g, st, node, failed, decisions));
      next.Some? ==> Inv(g, next.value) && |next.value.history| == |st.history| + 1
  {
    if node.terminal.None? && Retries(node, failed, Attempt(st, node.id)) {
      RetryKeepsInv(g, st, node, failed);
    } else {
      LeaveKeepsInv(g, st, node, failed);
      FireAllKeepsInv(g, Leave(st, node, failed), Outbound(g.transitions, node.id), decisions, 0);
    }
  }

  /** A fresh run starts with the accounts in order. */
  lemma {:induction false} StartInv(g: WorkflowGraph)
    requires ReferencesOk(g)
    ensures Inv(g, Start(g, Empty()))
  {
    FindNodeKnown(g.nodes, g.entry);
    var st := State({g.entry}, {}, map[], map[g.entry := 1], map[], []);
    assert Start(g, Empty()) == st;
    forall i | 0 <= i < |g.nodes|
      ensures JoinAccount(g, st, g.nodes[i])
    {
      StartJoin(g, st, g.nodes[i]);
    }
  }

  lemma {:induction false} StartJoin(g: WorkflowGraph, st: State, node: Node)
    requires st.counters == map[] && st.activations == map[g.entry := 1]
    ensures JoinAccount(g, st, node)
  {
    NothingFired(Inbound(g.transitions, node.id));
  }

  lemma {:induction false} NothingFired(ts: seq<Transition>)
    ensures TotalFirings(ts, map[]) == MaxFirings(ts, map[]) == FiredCount(ts, map[]) == 0
  {
    if ts != [] {
      NothingFired(ts[1..]);
    }
  }
}
