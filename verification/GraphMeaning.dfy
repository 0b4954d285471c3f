/** What joins, firings, settlements and retries come to, told by transitions and decisions alone. */
module GraphMeaning {
  import opened Wrappers
  import opened GraphModel
  import opened GraphValidate
  import opened GraphRun
  import opened GraphAccounting
  import opened GraphRounds
  import opened GraphWalk

  // ----------------------------------------------------------------------- joins

  /** The transitions into a node that have fired at least once. */
  function FiredInto(ts: seq<Transition>, id: string, counters: map<string, nat>): set<string> {
    set t | t in ts && t.to == id && Count(counters, t.id) > 0 :: t.id
  }

  /** All transitions into a node. */
  function Into(ts: seq<Transition>, id: string): set<string> {
    set t | t in ts && t.to == id :: t.id
  }

  /** As many as the busiest transition into the node has firings. */
  ghost predicate IsBusiest(ts: seq<Transition>, id: string, counters: map<string, nat>, n: int) {
    && n >= 0
    && (forall t :: t in ts && t.to == id ==> Count(counters, t.id) <= n)
    && (n > 0 ==> exists t :: t in ts && t.to == id && Count(counters, t.id) == n)
  }

  lemma {:induction false} FiredOfFirst(ts: seq<Transition>, id: string, counters: map<string, nat>)
    requires DistinctIds(ts) && ts != []
    ensures |FiredInto(ts, id, counters)| ==
      |FiredInto(ts[1..], id, counters)| + (if ts[0].to == id && Count(counters, ts[0].id) > 0 then 1 else 0)
  {
    var first := if ts[0].to == id && Count(counters, ts[0].id) > 0 then {ts[0].id} else {};
    assert forall t :: t in ts <==> t == ts[0] || t in ts[1..];
    assert FiredInto(ts, id, counters) == first + FiredInto(ts[1..], id, counters);
  }

  lemma {:induction false} IntoOfFirst(ts: seq<Transition>, id: string)
    requires DistinctIds(ts) && ts != []
    ensures |Into(ts, id)| == |Into(ts[1..], id)| + (if ts[0].to == id then 1 else 0)
  {
    assert forall t :: t in ts <==> t == ts[0] || t in ts[1..];
    assert ts[0].id !in Into(ts[1..], id);
    if ts[0].to == id {
      assert Into(ts, id) == {ts[0].id} + Into(ts[1..], id);
    } else {
      assert Into(ts, id) == Into(ts[1..], id);
    }
  }

  lemma {:induction false} FiredCountIsSize(ts: seq<Transition>, id: string, counters: map<string, nat>)
    requires DistinctIds(ts)
    ensures FiredCount(Inbound(ts, id), counters) == |FiredInto(ts, id, counters)|
    ensures |Inbound(ts, id)| == |Into(ts, id)|
  {
    if ts != [] {
      FiredCountIsSize(ts[1..], id, counters);
      FiredOfFirst(ts, id, counters);
      IntoOfFirst(ts, id);
    }
  }

  lemma {:induction false} MaxIsBusiest(ts: seq<Transition>, id: string, counters: map<string, nat>)
    ensures IsBusiest(ts, id, counters, MaxFirings(Inbound(ts, id), counters))
  {
    if ts != [] {
      MaxIsBusiest(ts[1..], id, counters);
      assert forall t :: t in ts <==> t == ts[0] || t in ts[1..];
    }
  }

  /** Activations beyond the one an entry starts with. */
  function Joined(g: WorkflowGraph, id: string, activations: map<string, nat>): int {
    Count(activations, id) - (if id == g.entry then 1 else 0)
  }

  /**
   * What joins are declared to do: `min` activates its node once when so many of its transitions
   * have fired, `all` when every one has, and `any` as often as the busiest.
   */
  ghost predicate JoinedAsDeclared(g: WorkflowGraph, node: Node, counters: map<string, nat>, activations: map<string, nat>)
    requires node.join.Some?
  {
    var fired, into, n := FiredInto(g.transitions, node.id, counters), Into(g.transitions, node.id), Joined(g, node.id, activations);
    match node.join.value
    case Join(MinOf, Some(least)) => least >= 1 ==> n == if |fired| >= least then 1 else 0
    case Join(MinOf, None) => n == if into != {} && fired == into then 1 else 0
    case Join(AllOf, _) => n == if into != {} && fired == into then 1 else 0
    case Join(AnyOf, _) => IsBusiest(g.transitions, node.id, counters, n)
  }

  lemma {:induction false} AccountMeansDeclared(g: WorkflowGraph, st: State, node: Node)
    requires DistinctIds(g.transitions) && JoinAccount(g, st, node) && node.join.Some?
    ensures JoinedAsDeclared(g, node, st.counters, st.activations)
  {
    FiredCountIsSize(g.transitions, node.id, st.counters);
    MaxIsBusiest(g.transitions, node.id, st.counters);
    var fired, into := FiredInto(g.transitions, node.id, st.counters), Into(g.transitions, node.id);
    assert fired <= into;
    AllOrFewer(fired, into);
  }

  lemma {:induction false} AllOrFewer(part: set<string>, whole: set<string>)
    requires part <= whole
    ensures |part| <= |whole| && (|part| == |whole| <==> part == whole)
  {
    assert whole == part + (whole - part);
  }

  /** In every state of a run declared joins have activated their nodes as declared. */
  lemma {:induction false} RunsJoinAsDeclared(g: WorkflowGraph, st: State, i: nat)
    requires ReferencesOk(g) && Inv(g, st) && i < |g.nodes| && g.nodes[i].join.Some?
    ensures JoinedAsDeclared(g, g.nodes[i], st.counters, st.activations)
  {
    AccountMeansDeclared(g, st, g.nodes[i]);
  }

  /** In every state of a walk, too; there, nodes without a declared join are activated like `any`. */
  lemma {:induction false} WalksJoinAsDeclared(g: WorkflowGraph, ws: WalkState, i: nat)
    requires ReferencesOk(g) && Accounts(g, ws) && i < |g.nodes|
    ensures g.nodes[i].join.Some? ==> JoinedAsDeclared(g, g.nodes[i], ws.counters, ws.activations)
    ensures g.nodes[i].join.None? ==>
      IsBusiest(g.transitions, g.nodes[i].id, ws.counters, Joined(g, g.nodes[i].id, ws.activations))
  {
    var node := AsWalked(g.nodes[i]);
    assert JoinAccount(WalkedGraph(g), Project(ws), node);
    AccountMeansDeclared(WalkedGraph(g), Project(ws), node);
  }

  // --------------------------------------------------------------------- firings

  predicate UsedUp(st: State, t: Transition) {
    t.loopBound.Some? && Count(st.counters, t.id) >= t.loopBound.value
  }

  /** No condition throws before this transition, and none that passes has used up its bound. */
  predicate GotPast(st: State, ts: seq<Transition>, decisions: seq<Decision>, k: nat)
    requires k <= |ts| == |decisions|
  {
    forall i :: 0 <= i < k ==> decisions[i] != ThrowsError && !(decisions[i] == Passes && UsedUp(st, ts[i]))
  }

  /**
   * The transitions of a settlement fire in order, each once and exactly if its condition passes, up
   * to a condition that throws or one that passes though its bound is used up.
   */
  ghost predicate FiresByDecision(st: State, ts: seq<Transition>, decisions: seq<Decision>, before: nat, r: Firing)
    requires |ts| == |decisions|
  {
    match r
    case FiredSome(s, n) =>
      && GotPast(st, ts, decisions, |ts|)
      && (forall i :: 0 <= i < |ts| ==>
            Count(s.counters, ts[i].id) == Count(st.counters, ts[i].id) + (if decisions[i] == Passes then 1 else 0))
      && n >= before && (n == before <==> forall i :: 0 <= i < |ts| ==> decisions[i] == Blocks)
    case BoundExceeded(_, id) =>
      exists k: nat :: k < |ts| && ts[k].id == id && GotPast(st, ts, decisions, k) && decisions[k] == Passes && UsedUp(st, ts[k])
    case ConditionThrew =>
      exists k: nat :: k < |ts| && GotPast(st, ts, decisions, k) && decisions[k] == ThrowsError
  }

  lemma {:induction false} FireLeavesOthers(g: WorkflowGraph, st: State, t: Transition)
    ensures Fire(g, st, t).counters == st.counters[t.id := Count(st.counters, t.id) + 1]
  {
  }

  lemma {:induction false} RestUndisturbed(g: WorkflowGraph, st: State, ts: seq<Transition>)
    requires DistinctIds(ts) && ts != []
    ensures forall i :: 0 <= i < |ts[1..]| ==>
      Count(Fire(g, st, ts[0]).counters, ts[1..][i].id) == Count(st.counters, ts[i + 1].id)
  {
    FireLeavesOthers(g, st, ts[0]);
  }

  lemma {:induction false} RestKeepsCounter(
    g: WorkflowGraph, st: State, ts: seq<Transition>, decisions: seq<Decision>, fired: nat, id: string)
    requires |decisions| == |ts| && forall t :: t in ts ==> t.id != id
    ensures var r := FireAll(g, st, ts, decisions, fired);
      r.FiredSome? ==> Count(r.st.counters, id) == Count(st.counters, id)
    decreases |ts|
  {
    if ts != [] && decisions[0] == Blocks {
      RestKeepsCounter(g, st, ts[1..], decisions[1..], fired, id);
    } else if ts != [] && decisions[0] == Passes && !AtBound(st, ts[0]) {
      FireLeavesOthers(g, st, ts[0]);
      RestKeepsCounter(g, Fire(g, st, ts[0]), ts[1..], decisions[1..], fired + 1, id);
    }
  }

  lemma {:induction false} OneMoreGotPast(
    st: State, next: State, ts: seq<Transition>, decisions: seq<Decision>, k: nat)
    requires ts != [] && k < |ts| == |decisions| && decisions[0] != ThrowsError
    requires !(decisions[0] == Passes && UsedUp(st, ts[0]))
    requires forall i :: 0 <= i < |ts[1..]| ==> Count(next.counters, ts[1..][i].id) == Count(st.counters, ts[i + 1].id)
    ensures GotPast(next, ts[1..], decisions[1..], k) ==> GotPast(st, ts, decisions, k + 1)
  {
    if GotPast(next, ts[1..], decisions[1..], k) {
      forall i | 0 <= i < k + 1
        ensures decisions[i] != ThrowsError && !(decisions[i] == Passes && UsedUp(st, ts[i]))
      {
        if i > 0 {
          assert decisions[1..][i - 1] == decisions[i] && ts[1..][i - 1] == ts[i];
        }
      }
    }
  }

  lemma {:induction false} FireAllByDecision(
    g: WorkflowGraph, st: State, ts: seq<Transition>, decisions: seq<Decision>, fired: nat)
    requires DistinctIds(ts) && |decisions| == |ts|
    ensures FiresByDecision(st, ts, decisions, fired, FireAll(g, st, ts, decisions, fired))
    decreases |ts|
  {
    if ts == [] {
    } else if decisions[0] == ThrowsError || (decisions[0] == Passes && AtBound(st, ts[0])) {
      assert GotPast(st, ts, decisions, 0);
    } else {
      var fires := decisions[0] == Passes;
      var next, count := if fires then Fire(g, st, ts[0]) else st, if fires then fired + 1 else fired;
      RestUndisturbed(g, st, ts);
      FireAllByDecision(g, next, ts[1..], decisions[1..], count);
      RestKeepsCounter(g, next, ts[1..], decisions[1..], count, ts[0].id);
      FiredOneMore(g, st, next, ts, decisions, fired, FireAll(g, next, ts[1..], decisions[1..], count));
    }
  }

  lemma {:induction false} FiredOneMore(
    g: WorkflowGraph, st: State, next: State, ts: seq<Transition>, decisions: seq<Decision>, fired: nat, r: Firing)
    requires DistinctIds(ts) && |decisions| == |ts| && ts != [] && decisions[0] in {Passes, Blocks}
    requires !(decisions[0] == Passes && UsedUp(st, ts[0]))
    requires forall i :: 0 <= i < |ts[1..]| ==> Count(next.counters, ts[1..][i].id) == Count(st.counters, ts[i + 1].id)
    requires FiresByDecision(next, ts[1..], decisions[1..], if decisions[0] == Passes then fired + 1 else fired, r)
    requires r.FiredSome? ==>
      Count(r.st.counters, ts[0].id) == Count(st.counters, ts[0].id) + (if decisions[0] == Passes then 1 else 0)
    ensures FiresByDecision(st, ts, decisions, fired, r)
  {
    match r
    case FiredSome(s, n) =>
      OneMoreGotPast(st, next, ts, decisions, |ts| - 1);
      assert forall i :: 1 <= i < |ts| ==> decisions[i] == decisions[1..][i - 1] && ts[i] == ts[1..][i - 1];
    case BoundExceeded(_, id) =>
      var k: nat :| k < |ts[1..]| && ts[1..][k].id == id && GotPast(next, ts[1..], decisions[1..], k)
        && decisions[1..][k] == Passes && UsedUp(next, ts[1..][k]);
      OneMoreGotPast(st, next, ts, decisions, k);
      assert ts[k + 1] == ts[1..][k] && decisions[k + 1] == decisions[1..][k];
    case ConditionThrew =>
      var k: nat :| k < |ts[1..]| && GotPast(next, ts[1..], decisions[1..], k) && decisions[1..][k] == ThrowsError;
      OneMoreGotPast(st, next, ts, decisions, k);
      assert decisions[k + 1] == decisions[1..][k];
  }

  // ----------------------------------------------------------------- settlements

  /** The number of an attempt counts activations and local retries. */
  function AttemptNumber(st: State, id: string): int {
    (if id in st.activations then st.activations[id] else 1) + (if id in st.retries then st.retries[id] else 0)
  }

  /** A node that failed, is not terminal, and has attempts left. */
  predicate HasAttemptsLeft(st: State, node: Node, failed: bool) {
    node.terminal.None? && failed && node.maxAttempts.Some? && AttemptNumber(st, node.id) < node.maxAttempts.value
  }

  predicate SomeThrows(st: State, ts: seq<Transition>, decisions: seq<Decision>)
    requires |ts| == |decisions|
  {
    exists k: nat :: k < |ts| && GotPast(st, ts, decisions, k) && decisions[k] == ThrowsError
  }

  predicate SomeUsedUp(st: State, ts: seq<Transition>, decisions: seq<Decision>)
    requires |ts| == |decisions|
  {
    exists k: nat :: k < |ts| && GotPast(st, ts, decisions, k) && decisions[k] == Passes && UsedUp(st, ts[k])
  }

  predicate AllBlock(decisions: seq<Decision>) {
    forall i :: 0 <= i < |decisions| ==> decisions[i] == Blocks
  }

  /** How a settlement ends, by node and decisions: it ends the run, retries, or fires. */
  ghost predicate SettlesByDecision(g: WorkflowGraph, st: State, node: Node, failed: bool, decisions: seq<Decision>, c: Control)
    requires |decisions| == |Outbound(g.transitions, node.id)|
  {
    var ts := Outbound(g.transitions, node.id);
    if node.terminal.Some? then c.Terminal? && c.outcome == node.terminal.value
    else if HasAttemptsLeft(st, node, failed) then
      c.Continue? && node.id in c.st.active && c.st.counters == st.counters && c.st.activations == st.activations
    else
      && (c.TickThrew? <==> SomeThrows(st, ts, decisions))
      && (c.LoopBoundExceeded? <==> SomeUsedUp(st, ts, decisions))
      && (c.NoTransition? <==> failed && AllBlock(decisions))
      && !c.Terminal?
  }

  lemma {:induction false} OnlyOneStops(st: State, ts: seq<Transition>, decisions: seq<Decision>)
    requires |ts| == |decisions|
    ensures SomeThrows(st, ts, decisions) ==> !SomeUsedUp(st, ts, decisions)
    ensures GotPast(st, ts, decisions, |ts|) ==> !SomeThrows(st, ts, decisions) && !SomeUsedUp(st, ts, decisions)
    ensures AllBlock(decisions) ==> GotPast(st, ts, decisions, |ts|)
  {
  }

  /** What firing its transitions makes of a settlement that is not retried. */
  lemma {:induction false} FiringMeaning(g: WorkflowGraph, st: State, node: Node, failed: bool, decisions: seq<Decision>)
    requires DistinctIds(g.transitions) && |decisions| == |Outbound(g.transitions, node.id)|
    requires node.terminal.None? && !HasAttemptsLeft(st, node, failed)
    ensures SettlesByDecision(g, st, node, failed, decisions, Settle(g, st, node, failed, decisions))
  {
    var ts, left := Outbound(g.transitions, node.id), Leave(st, node, failed);
    OutboundDistinct(g.transitions, node.id);
    var r := FireAll(g, left, ts, decisions, 0);
    FireAllByDecision(g, left, ts, decisions, 0);
    SameCountersSameDecision(st, left, ts, decisions);
    OnlyOneStops(left, ts, decisions);
    FiringStops(left, ts, decisions, r);
  }

  lemma {:induction false} FiringStops(left: State, ts: seq<Transition>, decisions: seq<Decision>, r: Firing)
    requires |ts| == |decisions| && FiresByDecision(left, ts, decisions, 0, r)
    ensures r.ConditionThrew? <==> SomeThrows(left, ts, decisions)
    ensures r.BoundExceeded? <==> SomeUsedUp(left, ts, decisions)
    ensures r.FiredSome? && r.count == 0 <==> AllBlock(decisions)
  {
    OnlyOneStops(left, ts, decisions);
  }

  /** A settlement ends as its decisions say. */
  lemma {:induction false} SettlementMeaning(g: WorkflowGraph, st: State, node: Node, failed: bool, decisions: seq<Decision>)
    requires DistinctIds(g.transitions) && |decisions| == |Outbound(g.transitions, node.id)|
    ensures SettlesByDecision(g, st, node, failed, decisions, Settle(g, st, node, failed, decisions))
  {
    if node.terminal.None? && !HasAttemptsLeft(st, node, failed) {
      FiringMeaning(g, st, node, failed, decisions);
    }
  }

  /** The record of a settlement: the attempt's number, whether it failed, and whether it is retried. */
  lemma {:induction false} SettlementRecord(g: WorkflowGraph, st: State, node: Node, failed: bool, decisions: seq<Decision>)
    requires |decisions| == |Outbound(g.transitions, node.id)|
    ensures var next := After(Settle(g, st, node, failed, decisions));
      var entry := NodeResult(node.id, AttemptNumber(st, node.id), failed, HasAttemptsLeft(st, node, failed));
      next.Some? ==> next.value.history == st.history + [entry]
  {
    FireAllKeepsActive(g, Leave(st, node, failed), Outbound(g.transitions, node.id), decisions, 0);
  }

  lemma {:induction false} SameCountersSameDecision(st: State, left: State, ts: seq<Transition>, decisions: seq<Decision>)
    requires |ts| == |decisions| && left.counters == st.counters
    ensures forall k: nat :: k <= |ts| ==> (GotPast(st, ts, decisions, k) <==> GotPast(left, ts, decisions, k))
    ensures SomeThrows(st, ts, decisions) <==> SomeThrows(left, ts, decisions)
    ensures SomeUsedUp(st, ts, decisions) <==> SomeUsedUp(left, ts, decisions)
  {
    assert forall t :: UsedUp(st, t) <==> UsedUp(left, t);
    forall k: nat | k <= |ts|
      ensures GotPast(st, ts, decisions, k) <==> GotPast(left, ts, decisions, k)
    {
    }
  }

  // --------------------------------------------------------------------- retries

  /** A retried settlement had attempts left; a failure that was not retried had none, if it was allowed any. */
  predicate RetriedAsAllowed(g: WorkflowGraph, r: NodeResult) {
    var found := FindNode(g.nodes, r.nodeId);
    && found.Some?
    && var node := found.value;
    && (r.retried ==> r.failed && node.terminal.None? && node.maxAttempts.Some? && r.attempt < node.maxAttempts.value)
    && (r.failed && !r.retried && node.terminal.None? && node.maxAttempts.Some? ==> r.attempt >= node.maxAttempts.value)
  }

  /** Over a whole run retries are made exactly while attempts are left. */
  lemma {:induction false} RetriesAsAllowed(g: WorkflowGraph, steps: seq<Step>)
    requires ReferencesOk(g) && RunTo(g, Start(g, Empty()), steps).Some?
    ensures var h := RunTo(g, Start(g, Empty()), steps).value.history;
      forall i :: 0 <= i < |h| ==> RetriedAsAllowed(g, h[i])
  {
    if steps != [] {
      var front, last := steps[..|steps| - 1], steps[|steps| - 1];
      RetriesAsAllowed(g, front);
      var s := RunTo(g, Start(g, Empty()), front).value;
      if last.Settles? {
        SettlementRecord(g, s, FindNode(g.nodes, last.id).value, last.failed, last.decisions);
      }
    } else {
      FindNodeKnown(g.nodes, g.entry);
    }
  }
}
