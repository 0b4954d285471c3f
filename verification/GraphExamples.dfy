/** Small validated graphs and runs of them, from the start on, that show what can go wrong. */
module GraphExamples {
  import opened Wrappers
  import opened StringOrder
  import opened Digraph
  import opened GraphModel
  import opened GraphValidate
  import opened GraphRun
  import opened GraphAccounting
  import opened GraphRounds
  import opened GraphWalk

  // ------------------------------------------------- when a small graph is valid

  /** Along transitions levels never fall, and without a bound they rise. */
  predicate IsLevelling(g: WorkflowGraph, level: map<string, nat>) {
    forall i :: 0 <= i < |g.transitions| ==>
      var t := g.transitions[i];
      && t.from in level && t.to in level && level[t.from] <= level[t.to]
      && (t.loopBound.None? ==> level[t.from] < level[t.to])
  }

  predicate EntersFromEarlier(g: WorkflowGraph, i: nat)
    requires i < |g.nodes|
  {
    exists j, k :: 0 <= j < i && 0 <= k < |g.transitions|
      && g.transitions[k].from == g.nodes[j].id && g.transitions[k].to == g.nodes[i].id
  }

  /** Every node but the entry, which is the first, is entered from an earlier one. */
  predicate IsListedInOrder(g: WorkflowGraph) {
    && g.nodes != [] && g.nodes[0].id == g.entry
    && forall i :: 1 <= i < |g.nodes| ==> EntersFromEarlier(g, i)
  }

  /** No node coalesces, some node is terminal, and from terminal nodes nothing leads on. */
  predicate HasPlainNodes(g: WorkflowGraph) {
    && (forall i :: 0 <= i < |g.nodes| ==> !Coalesces(g.nodes[i]))
    && (exists i :: 0 <= i < |g.nodes| && g.nodes[i].terminal.Some?)
    && forall i, k :: 0 <= i < |g.nodes| && 0 <= k < |g.transitions| && g.nodes[i].terminal.Some? ==>
         g.transitions[k].from != g.nodes[i].id
  }

  lemma {:induction false} ListedIsReached(g: WorkflowGraph, out: Graph, i: nat)
    requires IsOutgoing(g.transitions, out) && IsListedInOrder(g) && i < |g.nodes|
    ensures Reaches(out, g.entry, g.nodes[i].id)
  {
    if i == 0 {
      ReachesSelf(out, g.entry);
    } else {
      assert EntersFromEarlier(g, i);
      var j, k :| 0 <= j < i && 0 <= k < |g.transitions|
        && g.transitions[k].from == g.nodes[j].id && g.transitions[k].to == g.nodes[i].id;
      ListedIsReached(g, out, j);
      assert Connects(g.transitions, g.nodes[j].id, g.nodes[i].id);
      ReachesEdge(out, g.nodes[j].id, g.nodes[i].id);
      ReachesTransitive(out, g.entry, g.nodes[j].id, g.nodes[i].id);
    }
  }

  lemma {:induction false} RisesNeverReturn(g: WorkflowGraph, out: Graph, level: map<string, nat>, a: string, b: string)
    requires IsOutgoing(g.transitions, out) && IsLevelling(g, level)
    requires a in level && b in level && level[b] < level[a]
    ensures !Reaches(out, a, b)
  {
    var above := set v | v in level && level[v] >= level[a];
    if Reaches(out, a, b) {
      forall x, y | x in above && Edge(out, x, y)
        ensures y in above
      {
        assert Connects(g.transitions, x, y);
      }
      ClosedSetContainsReachable(out, above, a, b);
    }
  }

  lemma {:induction false} SourceOfNone(g: WorkflowGraph, out: Graph, id: string)
    requires IsOutgoing(g.transitions, out) && forall k :: 0 <= k < |g.transitions| ==> g.transitions[k].from != id
    ensures Succ(out, id) == []
  {
    var next := Succ(out, id);
    assert forall x :: !Connects(g.transitions, id, x);
    assert |next| > 0 ==> Edge(out, id, next[0]);
  }

  lemma {:induction false} PlainGraphIsOk(g: WorkflowGraph, level: map<string, nat>)
    requires ReferencesOk(g) && IsLevelling(g, level) && IsListedInOrder(g) && HasPlainNodes(g)
    ensures GraphOk(g)
  {
    var out := OutgoingOf(g.transitions);
    forall i | 0 <= i < |g.nodes|
      ensures Reaches(out, g.entry, g.nodes[i].id) && !MinWithoutCount(g.nodes[i])
      ensures g.nodes[i].terminal.Some? ==> Succ(out, g.nodes[i].id) == []
    {
      ListedIsReached(g, out, i);
      assert !Coalesces(g.nodes[i]);
      if g.nodes[i].terminal.Some? {
        SourceOfNone(g, out, g.nodes[i].id);
      }
    }
    forall i | 0 <= i < |g.transitions| && g.transitions[i].loopBound.None?
      ensures !Reaches(out, g.transitions[i].to, g.transitions[i].from)
    {
      RisesNeverReturn(g, out, level, g.transitions[i].to, g.transitions[i].from);
    }
  }

  // ------------------------------------------------------- a loop's second entry

  function Plain(id: string): Node {
    Node(id, None, None, None)
  }

  function End(id: string): Node {
    Node(id, Some(CompletedOutcome), None, None)
  }

  const LOOP := WorkflowGraph(
    "start",
    [Plain("start"), Plain("work"), End("end")],
    [Transition("begin", "start", "work", None, false),
     Transition("again", "work", "work", Some(2), true),
     Transition("done", "work", "end", None, true)])

  lemma {:induction false} LoopNodes()
    ensures FindNode(LOOP.nodes, "start") == Some(LOOP.nodes[0])
    ensures FindNode(LOOP.nodes, "work") == Some(LOOP.nodes[1])
    ensures FindNode(LOOP.nodes, "end") == Some(LOOP.nodes[2])
  {
    FindNodeAt(LOOP.nodes, 0);
    FindNodeAt(LOOP.nodes, 1);
    FindNodeAt(LOOP.nodes, 2);
  }

  lemma {:induction false} LoopTransitions()
    ensures Outbound(LOOP.transitions, "start") == [LOOP.transitions[0]]
    ensures Outbound(LOOP.transitions, "work") == [LOOP.transitions[1], LOOP.transitions[2]]
    ensures Outbound(LOOP.transitions, "end") == []
    ensures Inbound(LOOP.transitions, "work") == [LOOP.transitions[0], LOOP.transitions[1]]
    ensures Inbound(LOOP.transitions, "end") == [LOOP.transitions[2]]
  {
    var ts := LOOP.transitions;
    assert ts[1..] == [ts[1], ts[2]] && ts[1..][1..] == [ts[2]];
  }

  lemma {:induction false} LoopReferences()
    ensures ReferencesOk(LOOP)
  {
    KnownIds(LOOP);
    var ts, ids := LOOP.transitions, NodeIds(LOOP.nodes);
    assert LOOP.nodes[0].id in ids && LOOP.nodes[1].id in ids && LOOP.nodes[2].id in ids;
  }

  lemma {:induction false} KnownIds(g: WorkflowGraph)
    ensures forall i :: 0 <= i < |g.nodes| ==> g.nodes[i].id in NodeIds(g.nodes)
  {
  }

  lemma {:induction false} LoopIsListed()
    ensures IsListedInOrder(LOOP)
  {
    var nodes, ts := LOOP.nodes, LOOP.transitions;
    assert ts[0].from == nodes[0].id && ts[0].to == nodes[1].id && EntersFromEarlier(LOOP, 1);
    assert ts[2].from == nodes[1].id && ts[2].to == nodes[2].id && EntersFromEarlier(LOOP, 2);
  }

  lemma {:induction false} LoopIsPlain()
    ensures HasPlainNodes(LOOP) && IsLevelling(LOOP, map["start" := 0, "work" := 1, "end" := 2])
  {
    assert LOOP.nodes[2].terminal.Some?;
  }

  lemma {:induction false} LoopIsOk()
    ensures GraphOk(LOOP)
  {
    LoopReferences();
    LoopIsListed();
    LoopIsPlain();
    PlainGraphIsOk(LOOP, map["start" := 0, "work" := 1, "end" := 2]);
  }

  const LOOPED: map<string, nat> := map["begin" := 1, "again" := 1]

  /** The walk settles the first node in its queue, and this transition of it alone fires. */
  predicate WalksOn(g: WorkflowGraph, ws: WalkState, t: Transition, next: WalkState) {
    ws.queue != [] && ws.queue[0] == t.from && next == WalkFire(g, Settled(ws), t)
  }

  function WalkEntered(): WalkState {
    WalkState(map["begin" := 1], map["start" := 1, "work" := 1], ["start"], ["work"])
  }

  function WalkBack(): WalkState {
    WalkState(LOOPED, map["start" := 1, "work" := 1], ["start", "work"], [])
  }

  /** The walk settles the start and enters the loop. */
  lemma {:induction false} LoopWalkEnters()
    ensures WalksOn(LOOP, WalkStart(LOOP), LOOP.transitions[0], WalkEntered())
  {
    LoopNodes();
    LoopTransitions();
    var ts := LOOP.transitions;
    var ws0 := WalkStart(LOOP);
    assert ws0 == WalkState(map[], map["start" := 1], [], ["start"]);
    assert Settled(ws0) == WalkState(map[], map["start" := 1], ["start"], []);
    NothingFired(Inbound(ts, "work"));
    BumpOnce(Inbound(ts, "work"), map[], ts[0]);
    assert WalkFire(LOOP, Settled(ws0), ts[0]) == WalkEntered();
  }

  /** Back from the loop it finds the node not due again, and has nothing left in its queue. */
  lemma {:induction false} LoopWalkStalls()
    ensures WalksOn(LOOP, WalkEntered(), LOOP.transitions[1], WalkBack())
  {
    LoopNodes();
    LoopTransitions();
    var ts, ws := LOOP.transitions, WalkEntered();
    assert Settled(ws) == WalkState(ws.counters, ws.activations, ["start", "work"], []);
    assert Bump(ws.counters, "again") == LOOPED;
    assert MaxFirings([ts[1]], LOOPED) == 1 && [ts[0], ts[1]][1..] == [ts[1]];
    assert MaxFirings([ts[0], ts[1]], LOOPED) == 1;
    assert WalkFire(LOOP, Settled(ws), ts[1]) == WalkBack();
  }

  const INTO_LOOP := Settles("start", false, [Passes])
  const ROUND_LOOP := Settles("work", false, [Passes, Blocks])
  const OUT_OF_LOOP := Settles("work", false, [Blocks, Passes])

  function LoopEntered(): State {
    State({"work"}, {}, map["begin" := 1], map["start" := 1, "work" := 1], map[], [NodeResult("start", 1, false, false)])
  }

  function LoopAgain(): State {
    State({"work"}, {}, LOOPED, map["start" := 1, "work" := 2], map[],
          [NodeResult("start", 1, false, false), NodeResult("work", 1, false, false)])
  }

  lemma {:induction false} LoopRunEnters()
    ensures Start(LOOP, Empty()) == State({"start"}, {}, map[], map["start" := 1], map[], [])
    ensures Next(LOOP, Start(LOOP, Empty()), INTO_LOOP) == Some(LoopEntered())
  {
    LoopNodes();
    LoopTransitions();
    var ts, st := LOOP.transitions, Start(LOOP, Empty());
    assert st == State({"start"}, {}, map[], map["start" := 1], map[], []);
    var left := Leave(st, LOOP.nodes[0], false);
    assert left == State({}, {}, map[], map["start" := 1], map[], [NodeResult("start", 1, false, false)]);
    NothingFired(Inbound(ts, "work"));
    BumpOnce(Inbound(ts, "work"), map[], ts[0]);
    assert Fire(LOOP, left, ts[0]) == LoopEntered();
    assert FireAll(LOOP, left, [ts[0]], [Passes], 0) == FiredSome(LoopEntered(), 1);
  }

  lemma {:induction false} LoopRunGoesRound()
    ensures Next(LOOP, LoopEntered(), ROUND_LOOP) == Some(LoopAgain())
  {
    LoopNodes();
    LoopTransitions();
    var ts, st := LOOP.transitions, LoopEntered();
    var left := Leave(st, LOOP.nodes[1], false);
    assert left == st.(active := {}, history := LoopAgain().history);
    assert Bump(left.counters, "again") == LOOPED;
    assert TotalFirings([ts[1]], LOOPED) == 1 && [ts[0], ts[1]][1..] == [ts[1]];
    assert TotalFirings([ts[0], ts[1]], LOOPED) == 2;
    assert Fire(LOOP, left, ts[1]) == LoopAgain();
    assert [ts[1], ts[2]][1..] == [ts[2]];
    assert FireAll(LOOP, LoopAgain(), [ts[2]], [Blocks], 1) == FiredSome(LoopAgain(), 1);
    assert FireAll(LOOP, left, [ts[1], ts[2]], [Passes, Blocks], 0) == FiredSome(LoopAgain(), 1);
  }

  lemma {:induction false} LoopRunEnds() returns (last: State)
    ensures Next(LOOP, LoopAgain(), OUT_OF_LOOP) == Some(last)
    ensures EndsAt(LOOP, last, Settles("end", false, []), CompletedOutcome)
  {
    LoopNodes();
    LoopTransitions();
    var ts, st := LOOP.transitions, LoopAgain();
    var left := Leave(st, LOOP.nodes[1], false);
    last := Fire(LOOP, left, ts[2]);
    NothingFired([ts[2]]);
    assert TotalFirings([ts[2]], Bump(LOOPED, "done")) == 1;
    assert "end" in last.active;
    assert [ts[1], ts[2]][1..] == [ts[2]];
    assert FireAll(LOOP, left, [ts[2]], [Passes], 0) == FiredSome(last, 1);
    assert FireAll(LOOP, left, [ts[1], ts[2]], [Blocks, Passes], 0) == FiredSome(last, 1);
  }

  /**
   * A validated graph on which the same conditions let the run complete and the walk stall: it goes
   * round its loop once, entering by a second transition the node that the first one led to. The
   * same transitions have fired in both, but only the run activates the node again.
   */
  lemma {:induction false} LoopStallsTheWalkAlone() returns (last: State)
    ensures GraphOk(LOOP)
    ensures WalksOn(LOOP, WalkStart(LOOP), LOOP.transitions[0], WalkEntered())
    ensures WalksOn(LOOP, WalkEntered(), LOOP.transitions[1], WalkBack()) && WalkBack().queue == []
    ensures RunTo(LOOP, Start(LOOP, Empty()), [INTO_LOOP, ROUND_LOOP]) == Some(LoopAgain())
    ensures LoopAgain().counters == WalkBack().counters && LoopAgain().active == {"work"}
    ensures Next(LOOP, LoopAgain(), OUT_OF_LOOP) == Some(last)
    ensures EndsAt(LOOP, last, Settles("end", false, []), CompletedOutcome)
  {
    LoopIsOk();
    LoopWalkEnters();
    LoopWalkStalls();
    LoopRunEnters();
    LoopRunGoesRound();
    LeadsBySteps(LOOP, Start(LOOP, Empty()), INTO_LOOP, LoopEntered(), ROUND_LOOP, LoopAgain());
    last := LoopRunEnds();
  }

  lemma {:induction false} LeadsBySteps(g: WorkflowGraph, a: State, s: Step, b: State, t: Step, c: State)
    requires Next(g, a, s) == Some(b) && Next(g, b, t) == Some(c)
    ensures RunTo(g, a, [s]) == Some(b) && RunTo(g, a, [s, t]) == Some(c)
  {
    assert [s][..0] == [];
    assert RunTo(g, a, []) == Some(a);
    assert [s, t][..1] == [s];
  }

  // ------------------------------------------------------------------- a fork

  /** From the start to two nodes at once, of which the second one ends the run. */
  function Fork(first: Option<TerminalOutcome>, second: TerminalOutcome): WorkflowGraph {
    WorkflowGraph(
      "start",
      [Plain("start"), Node("first", first, None, None), Node("second", Some(second), None, None)],
      [Transition("to-first", "start", "first", None, false), Transition("to-second", "start", "second", None, false)])
  }

  lemma {:induction false} ForkNodes(first: Option<TerminalOutcome>, second: TerminalOutcome)
    ensures var g := Fork(first, second);
      && FindNode(g.nodes, "start") == Some(g.nodes[0])
      && FindNode(g.nodes, "first") == Some(g.nodes[1])
      && FindNode(g.nodes, "second") == Some(g.nodes[2])
  {
    var g := Fork(first, second);
    FindNodeAt(g.nodes, 0);
    FindNodeAt(g.nodes, 1);
    FindNodeAt(g.nodes, 2);
  }

  lemma {:induction false} ForkTransitions(first: Option<TerminalOutcome>, second: TerminalOutcome)
    ensures var ts := Fork(first, second).transitions;
      && Outbound(ts, "start") == ts
      && Outbound(ts, "first") == [] && Outbound(ts, "second") == []
      && Inbound(ts, "first") == [ts[0]] && Inbound(ts, "second") == [ts[1]]
  {
    var ts := Fork(first, second).transitions;
    assert ts[1..] == [ts[1]] && [ts[0], ts[1]] == ts;
  }

  lemma {:induction false} ForkReferences(first: Option<TerminalOutcome>, second: TerminalOutcome)
    ensures ReferencesOk(Fork(first, second))
  {
    var nodes := Fork(first, second).nodes;
    KnownIds(Fork(first, second));
    assert nodes[0].id in NodeIds(nodes) && nodes[1].id in NodeIds(nodes) && nodes[2].id in NodeIds(nodes);
  }

  lemma {:induction false} ForkIsListed(first: Option<TerminalOutcome>, second: TerminalOutcome)
    ensures IsListedInOrder(Fork(first, second))
  {
    var nodes, ts := Fork(first, second).nodes, Fork(first, second).transitions;
    assert ts[0].from == nodes[0].id && ts[0].to == nodes[1].id && EntersFromEarlier(Fork(first, second), 1);
    assert ts[1].from == nodes[0].id && ts[1].to == nodes[2].id && EntersFromEarlier(Fork(first, second), 2);
  }

  lemma {:induction false} ForkIsPlain(first: Option<TerminalOutcome>, second: TerminalOutcome)
    ensures HasPlainNodes(Fork(first, second))
    ensures IsLevelling(Fork(first, second), map["start" := 0, "first" := 1, "second" := 1])
  {
    assert Fork(first, second).nodes[2].terminal.Some?;
  }

  lemma {:induction false} ForkIsOk(first: Option<TerminalOutcome>, second: TerminalOutcome)
    ensures GraphOk(Fork(first, second))
  {
    ForkReferences(first, second);
    ForkIsListed(first, second);
    ForkIsPlain(first, second);
    PlainGraphIsOk(Fork(first, second), map["start" := 0, "first" := 1, "second" := 1]);
  }

  function Forked(): State {
    State({"first", "second"}, {}, map["to-first" := 1, "to-second" := 1],
          map["start" := 1, "first" := 1, "second" := 1], map[], [NodeResult("start", 1, false, false)])
  }

  const FORKS := Settles("start", false, [Passes, Passes])

  function ForkStart(): State {
    State({"start"}, {}, map[], map["start" := 1], map[], [])
  }

  function ForkLeft(): State {
    State({}, {}, map[], map["start" := 1], map[], Forked().history)
  }

  function ForkHalf(): State {
    State({"first"}, {}, map["to-first" := 1], map["start" := 1, "first" := 1], map[], Forked().history)
  }

  lemma {:induction false} ForkFiresOne(first: Option<TerminalOutcome>, second: TerminalOutcome)
    ensures var g := Fork(first, second); Fire(g, ForkLeft(), g.transitions[0]) == ForkHalf()
  {
    ForkNodes(first, second);
    ForkTransitions(first, second);
  }

  lemma {:induction false} ForkFiresOther(first: Option<TerminalOutcome>, second: TerminalOutcome)
    ensures var g := Fork(first, second); Fire(g, ForkHalf(), g.transitions[1]) == Forked()
  {
    ForkNodes(first, second);
    ForkTransitions(first, second);
  }

  lemma {:induction false} BothFire(g: WorkflowGraph, st: State, s: Transition, t: Transition)
    requires s.loopBound.None? && t.loopBound.None?
    ensures FireAll(g, st, [s, t], [Passes, Passes], 0) == FiredSome(Fire(g, Fire(g, st, s), t), 2)
  {
    assert [s, t][1..] == [t] && [Passes, Passes][1..] == [Passes];
    assert FireAll(g, Fire(g, st, s), [t], [Passes], 1) == FiredSome(Fire(g, Fire(g, st, s), t), 2);
  }

  /** Both transitions out of the start fire and activate their nodes. */
  lemma {:induction false} ForkForks(first: Option<TerminalOutcome>, second: TerminalOutcome)
    ensures Next(Fork(first, second), Start(Fork(first, second), Empty()), FORKS) == Some(Forked())
    ensures Settle(Fork(first, second), Start(Fork(first, second), Empty()), Fork(first, second).nodes[0], false, [Passes, Passes]) ==
      Continue(Forked())
  {
    ForkNodes(first, second);
    ForkTransitions(first, second);
    ForkFiresOne(first, second);
    ForkFiresOther(first, second);
    var g := Fork(first, second);
    var ts := g.transitions;
    assert Start(g, Empty()) == ForkStart();
    assert Leave(ForkStart(), g.nodes[0], false) == ForkLeft();
    BothFire(g, ForkLeft(), ts[0], ts[1]);
    assert ts == [ts[0], ts[1]];
  }

  /** One node is runnable, and lets the tick go on. */
  lemma {:induction false} OneStepRound(g: WorkflowGraph, a: State, step: Step, b: State)
    requires Runnable(a, {}) == {step.id} && !step.Resumes? && Next(g, a, step) == Some(b)
    requires step.Settles? ==> ControlOf(g, a, step).Continue?
    ensures RoundTo(g, a, b)
  {
    SortedOne(step.id);
    assert [step][..0] == [] && RunTo(g, a, []) == Some(a) && GoesOn(g, a, []);
    assert Ids([step]) == [step.id];
    assert FullRound(g, a, b, [step]);
  }

  /** That is a whole round of a tick. */
  lemma {:induction false} ForkRound(first: Option<TerminalOutcome>, second: TerminalOutcome)
    ensures RoundTo(Fork(first, second), Start(Fork(first, second), Empty()), Forked())
  {
    ForkForks(first, second);
    ForkNodes(first, second);
    var st := Start(Fork(first, second), Empty());
    assert st.active == {"start"} && st.waiting == {} && Runnable(st, {}) == {"start"};
    OneStepRound(Fork(first, second), st, FORKS, Forked());
  }

  lemma {:induction false} ForkOrder()
    ensures Runnable(Forked(), {}) == {"first", "second"} && Sorted({"first", "second"}) == ["first", "second"]
  {
    SortedPair("first", "second");
  }

  /** Then the first node waits. */
  lemma {:induction false} ForkWaits(second: TerminalOutcome) returns (asked: State)
    ensures Next(Fork(None, second), Forked(), Suspends("first")) == Some(asked)
    ensures asked == Forked().(waiting := {"first"}) && GoesOn(Fork(None, second), Forked(), [Suspends("first")])
    ensures RunTo(Fork(None, second), Forked(), [Suspends("first")]) == Some(asked)
  {
    ForkNodes(None, second);
    var waits := Suspends("first");
    asked := Forked().(waiting := {"first"});
    assert Forked().waiting + {"first"} == {"first"};
    assert [waits][..0] == [] && GoesOn(Fork(None, second), Forked(), []);
    assert RunTo(Fork(None, second), Forked(), []) == Some(Forked());
  }

  /** A terminal node whose turn it is ends a run. */
  lemma {:induction false} EndsLast(
    g: WorkflowGraph, a: State, steps: seq<Step>, s: State, id: string, node: Node, outcome: TerminalOutcome)
    requires RunTo(g, a, steps) == Some(s) && GoesOn(g, a, steps) && id in s.active
    requires FindNode(g.nodes, id) == Some(node) && node.terminal == Some(outcome) && Outbound(g.transitions, id) == []
    requires Ids(steps) + [id] <= Sorted(Runnable(a, {})) && forall i :: 0 <= i < |steps| ==> !steps[i].Resumes?
    ensures LastRound(g, a, steps, Settles(id, false, []), outcome)
    ensures RunTo(g, a, steps + [Settles(id, false, [])]) == Some(Leave(s, node, false))
  {
    var last := Settles(id, false, []);
    RunOneMore(g, a, steps, last);
    assert Ids(steps + [last]) == Ids(steps) + [id];
  }

  /** A node waits, and the terminal node after it ends the run. */
  lemma {:induction false} EndsAfterWait(
    g: WorkflowGraph, a: State, first: string, s: State, id: string, node: Node, outcome: TerminalOutcome)
    requires RunTo(g, a, [Suspends(first)]) == Some(s) && GoesOn(g, a, [Suspends(first)]) && id in s.active
    requires FindNode(g.nodes, id) == Some(node) && node.terminal == Some(outcome) && Outbound(g.transitions, id) == []
    requires Sorted(Runnable(a, {})) == [first, id]
    ensures LastRound(g, a, [Suspends(first)], Settles(id, false, []), outcome)
    ensures RunTo(g, a, [Suspends(first), Settles(id, false, [])]) == Some(Leave(s, node, false))
  {
    assert Ids([Suspends(first)]) + [id] == [first, id];
    assert [Suspends(first)] + [Settles(id, false, [])] == [Suspends(first), Settles(id, false, [])];
    EndsLast(g, a, [Suspends(first)], s, id, node, outcome);
  }

  /** And the second one ends the run. */
  lemma {:induction false} ForkWaitsAndEnds(second: TerminalOutcome) returns (saved: State)
    ensures LastRound(Fork(None, second), Forked(), [Suspends("first")], Settles("second", false, []), second)
    ensures RunTo(Fork(None, second), Forked(), [Suspends("first"), Settles("second", false, [])]) == Some(saved)
    ensures saved.active == saved.waiting == {"first"}
  {
    ForkNodes(None, second);
    ForkTransitions(None, second);
    ForkOrder();
    var asked := ForkWaits(second);
    var node := Fork(None, second).nodes[2];
    EndsAfterWait(Fork(None, second), Forked(), "first", asked, "second", node, second);
    saved := Leave(asked, node, false);
  }

  /** The first to be executed is a terminal node: it ends the run at once. */
  lemma {:induction false} EndsFirst(g: WorkflowGraph, a: State, id: string, node: Node, outcome: TerminalOutcome)
    requires id in a.active && [id] <= Sorted(Runnable(a, {}))
    requires FindNode(g.nodes, id) == Some(node) && node.terminal == Some(outcome) && Outbound(g.transitions, id) == []
    ensures LastRound(g, a, [], Settles(id, false, []), outcome)
    ensures RunTo(g, a, [Settles(id, false, [])]) == Some(Leave(a, node, false))
  {
    assert Ids([]) + [id] == [id] && [] + [Settles(id, false, [])] == [Settles(id, false, [])];
    EndsLast(g, a, [], a, id, node, outcome);
  }

  /** If the first node ends the run the second one is still active. */
  lemma {:induction false} ForkEnds(first: TerminalOutcome, second: TerminalOutcome) returns (saved: State)
    ensures LastRound(Fork(Some(first), second), Forked(), [], Settles("first", false, []), first)
    ensures RunTo(Fork(Some(first), second), Forked(), [Settles("first", false, [])]) == Some(saved)
    ensures saved == Leave(Forked(), Fork(Some(first), second).nodes[1], false)
  {
    ForkNodes(Some(first), second);
    ForkTransitions(Some(first), second);
    ForkOrder();
    var node := Fork(Some(first), second).nodes[1];
    EndsFirst(Fork(Some(first), second), Forked(), "first", node, first);
    saved := Leave(Forked(), node, false);
  }

  /** Then that one decides how the run can end once more. */
  lemma {:induction false} ForkEndsTwice(first: TerminalOutcome, second: TerminalOutcome, saved: State, outcome: TerminalOutcome)
    requires saved == Leave(Forked(), Fork(Some(first), second).nodes[1], false)
    ensures saved.active == {"second"} && saved.waiting == {}
    ensures MayEnd(Fork(Some(first), second), saved, outcome) <==> outcome == second
  {
    ForkNodes(Some(first), second);
    assert Runnable(saved, {}) == {"second"};
    AtMostIsTotal("second", "second");
    LeastTerminalDecides(Fork(Some(first), second), saved, outcome, "second");
  }

  // ------------------------------------------------------ a node that asks twice

  const ASK := WorkflowGraph("ask", [Plain("ask"), End("end")], [Transition("done", "ask", "end", None, false)])

  lemma {:induction false} AskNodes()
    ensures FindNode(ASK.nodes, "ask") == Some(ASK.nodes[0]) && !IsTerminalNode(ASK, "ask")
  {
    FindNodeAt(ASK.nodes, 0);
  }

  lemma {:induction false} AskIsOk()
    ensures GraphOk(ASK)
  {
    KnownIds(ASK);
    var nodes, ts := ASK.nodes, ASK.transitions;
    assert nodes[0].id in NodeIds(nodes) && nodes[1].id in NodeIds(nodes);
    assert ts[0].from == nodes[0].id && ts[0].to == nodes[1].id && EntersFromEarlier(ASK, 1);
    assert nodes[1].terminal.Some?;
    PlainGraphIsOk(ASK, map["ask" := 0, "end" := 1]);
  }

  function Asking(): State {
    State({"ask"}, {}, map[], map["ask" := 1], map[], [])
  }

  function Asked(): State {
    Asking().(waiting := {"ask"})
  }

  lemma {:induction false} AskSteps()
    ensures Next(ASK, Asking(), Suspends("ask")) == Some(Asked())
    ensures Next(ASK, Asked(), Resumes("ask")) == Some(Asking())
  {
    AskNodes();
    assert Asking().waiting + {"ask"} == {"ask"} && Asked().waiting - {"ask"} == {};
  }

  lemma {:induction false} AskBegins()
    ensures Start(ASK, Empty()) == Asking()
  {
    AskNodes();
  }

  lemma {:induction false} AskStarts()
    ensures Start(ASK, Empty()) == Asking() && Inv(ASK, Asked())
  {
    AskIsOk();
    AskBegins();
    StartInv(ASK);
    WaitsDoNotCount(ASK, Asking(), {"ask"});
  }

  /** It waits in the first round, and when it is answered it can wait once more. */
  lemma {:induction false} AsksTwice()
    ensures Start(ASK, Empty()) == Asking() && Inv(ASK, Asked())
    ensures RoundTo(ASK, Asking(), Asked()) && Runnable(Asked(), {}) == {}
    ensures RunTo(ASK, Asked(), [Resumes("ask"), Suspends("ask")]) == Some(Asked())
  {
    AskStarts();
    AskSteps();
    LeadsBySteps(ASK, Asked(), Resumes("ask"), Asking(), Suspends("ask"), Asked());
    AskRound();
  }

  lemma {:induction false} AskRound()
    ensures RoundTo(ASK, Asking(), Asked())
  {
    AskSteps();
    assert Runnable(Asking(), {}) == {"ask"};
    OneStepRound(ASK, Asking(), Suspends("ask"), Asked());
  }
}
