/** Parallel branches that converge on a node without a declared join, and the execution they lose. */
module GraphDiamond {
  import opened Wrappers
  import opened GraphModel
  import opened GraphValidate
  import opened GraphRun
  import opened GraphAccounting
  import opened GraphRounds
  import opened GraphFirings
  import opened GraphExamples

  const DIAMOND := WorkflowGraph(
    "start",
    [Plain("start"), Plain("left"), Plain("right"), Plain("meet"), End("end")],
    [Transition("to-left", "start", "left", None, false),
     Transition("to-right", "start", "right", None, false),
     Transition("from-left", "left", "meet", None, false),
     Transition("from-right", "right", "meet", None, false),
     Transition("done", "meet", "end", None, false)])

  lemma {:induction false} DiamondNodes()
    ensures FindNode(DIAMOND.nodes, "start") == Some(DIAMOND.nodes[0])
    ensures FindNode(DIAMOND.nodes, "left") == Some(DIAMOND.nodes[1])
    ensures FindNode(DIAMOND.nodes, "right") == Some(DIAMOND.nodes[2])
    ensures FindNode(DIAMOND.nodes, "meet") == Some(DIAMOND.nodes[3])
  {
    FindNodeAt(DIAMOND.nodes, 0);
    FindNodeAt(DIAMOND.nodes, 1);
    FindNodeAt(DIAMOND.nodes, 2);
    FindNodeAt(DIAMOND.nodes, 3);
  }

  lemma {:induction false} DiamondRest()
    ensures var ts := DIAMOND.transitions;
      && ts[1..] == [ts[1], ts[2], ts[3], ts[4]] && ts[1..][1..] == [ts[2], ts[3], ts[4]]
      && ts[1..][1..][1..] == [ts[3], ts[4]] && ts[1..][1..][1..][1..] == [ts[4]]
  {
  }

  lemma {:induction false} DiamondEntry()
    ensures Outbound(DIAMOND.transitions, "start") == [DIAMOND.transitions[0], DIAMOND.transitions[1]]
  {
    DiamondRest();
  }

  lemma {:induction false} DiamondLeft()
    ensures Outbound(DIAMOND.transitions, "left") == [DIAMOND.transitions[2]]
  {
    DiamondRest();
  }

  lemma {:induction false} DiamondRight()
    ensures Outbound(DIAMOND.transitions, "right") == [DIAMOND.transitions[3]]
  {
    DiamondRest();
  }

  lemma {:induction false} DiamondNodeIds()
    ensures forall i, j :: 0 <= i < j < |DIAMOND.nodes| ==> DIAMOND.nodes[i].id != DIAMOND.nodes[j].id
  {
  }

  lemma {:induction false} DiamondTransitionIds()
    ensures forall i, j :: 0 <= i < j < |DIAMOND.transitions| ==> DIAMOND.transitions[i].id != DIAMOND.transitions[j].id
  {
  }

  lemma {:induction false} DiamondReferences()
    ensures ReferencesOk(DIAMOND)
  {
    DiamondNodeIds();
    DiamondTransitionIds();
    KnownIds(DIAMOND);
    var nodes, ids := DIAMOND.nodes, NodeIds(DIAMOND.nodes);
    assert nodes[0].id in ids && nodes[1].id in ids && nodes[2].id in ids && nodes[3].id in ids && nodes[4].id in ids;
  }

  lemma {:induction false} DiamondForksFirst()
    ensures EntersFromEarlier(DIAMOND, 1) && EntersFromEarlier(DIAMOND, 2)
  {
    var nodes, ts := DIAMOND.nodes, DIAMOND.transitions;
    assert ts[0].from == nodes[0].id && ts[0].to == nodes[1].id;
    assert ts[1].from == nodes[0].id && ts[1].to == nodes[2].id;
  }

  lemma {:induction false} DiamondConverges()
    ensures EntersFromEarlier(DIAMOND, 3) && EntersFromEarlier(DIAMOND, 4)
  {
    var nodes, ts := DIAMOND.nodes, DIAMOND.transitions;
    assert ts[2].from == nodes[1].id && ts[2].to == nodes[3].id;
    assert ts[4].from == nodes[3].id && ts[4].to == nodes[4].id;
  }

  lemma {:induction false} DiamondIsListed()
    ensures IsListedInOrder(DIAMOND)
  {
    DiamondForksFirst();
    DiamondConverges();
  }

  lemma {:induction false} DiamondIsPlain()
    ensures HasPlainNodes(DIAMOND)
    ensures IsLevelling(DIAMOND, map["start" := 0, "left" := 1, "right" := 1, "meet" := 2, "end" := 3])
  {
    assert DIAMOND.nodes[4].terminal.Some?;
  }

  lemma {:induction false} DiamondIsOk()
    ensures GraphOk(DIAMOND)
  {
    DiamondReferences();
    DiamondIsListed();
    DiamondIsPlain();
    PlainGraphIsOk(DIAMOND, map["start" := 0, "left" := 1, "right" := 1, "meet" := 2, "end" := 3]);
  }

  /** Nodes declare no joins and are not retried, and transitions are not bounded. */
  predicate IsUndeclared(g: WorkflowGraph) {
    && (forall i :: 0 <= i < |g.nodes| ==> g.nodes[i].join.None? && g.nodes[i].maxAttempts.None?)
    && forall i :: 0 <= i < |g.transitions| ==> g.transitions[i].loopBound.None?
  }

  function TargetSet(ts: seq<Transition>): set<string> {
    set i | 0 <= i < |ts| :: ts[i].to
  }

  ghost predicate AllJoinAccounts(g: WorkflowGraph, st: State) {
    forall i :: 0 <= i < |g.nodes| ==> JoinAccount(g, st, g.nodes[i])
  }

  lemma {:induction false} UndeclaredFires(g: WorkflowGraph, st: State, t: Transition)
    requires ReferencesOk(g) && IsUndeclared(g) && AllJoinAccounts(g, st) && t in g.transitions
    ensures AllJoinAccounts(g, Fire(g, st, t)) && Fire(g, st, t).active == st.active + {t.to}
  {
    FindNodeKnown(g.nodes, t.to);
    var target := FindNode(g.nodes, t.to).value;
    var k := NodeIsFound(g, target);
    FireForm(g, st, t, target);
    var fired := st.(counters := Bump(st.counters, t.id));
    assert JoinAccount(g, st, g.nodes[k]);
    JoinDecidesDue(g, st, fired, target, t);
    InboundDistinct(g.transitions, target.id);
    BumpOnce(Inbound(g.transitions, target.id), st.counters, t);
    forall i | 0 <= i < |g.nodes|
      ensures JoinAccount(g, Fire(g, st, t), g.nodes[i])
    {
      assert JoinAccount(g, st, g.nodes[i]);
      FireKeepsJoin(g, st, t, i);
    }
  }

  lemma {:induction false} TargetsOfFirst(ts: seq<Transition>)
    requires ts != []
    ensures TargetSet(ts) == {ts[0].to} + TargetSet(ts[1..])
  {
    assert forall i :: 0 <= i < |ts[1..]| ==> ts[1..][i] == ts[i + 1];
    assert forall i :: 1 <= i < |ts| ==> ts[i] == ts[1..][i - 1];
  }

  function FireEach(g: WorkflowGraph, st: State, ts: seq<Transition>): State
    decreases |ts|
  {
    if ts == [] then st else FireEach(g, Fire(g, st, ts[0]), ts[1..])
  }

  /** Unbounded transitions fire, one after another. */
  lemma {:induction false} AllFire(g: WorkflowGraph, st: State, ts: seq<Transition>, fired: nat)
    requires IsUndeclared(g) && forall t :: t in ts ==> t in g.transitions
    ensures FireAll(g, st, ts, AllPass(|ts|), fired) == FiredSome(FireEach(g, st, ts), fired + |ts|)
    decreases |ts|
  {
    if ts != [] {
      NotAtBound(g, st, ts[0]);
      AllFire(g, Fire(g, st, ts[0]), ts[1..], fired + 1);
      assert AllPass(|ts|)[1..] == AllPass(|ts[1..]|);
    }
  }

  /** Where nothing is declared every one of them activates its target. */
  lemma {:induction false} EachActivates(g: WorkflowGraph, st: State, ts: seq<Transition>)
    requires ReferencesOk(g) && IsUndeclared(g) && AllJoinAccounts(g, st) && forall t :: t in ts ==> t in g.transitions
    ensures FireEach(g, st, ts).active == st.active + TargetSet(ts)
    decreases |ts|
  {
    if ts != [] {
      UndeclaredFires(g, st, ts[0]);
      EachActivates(g, Fire(g, st, ts[0]), ts[1..]);
      TargetsOfFirst(ts);
    }
  }

  lemma {:induction false} NotAtBound(g: WorkflowGraph, st: State, t: Transition)
    requires IsUndeclared(g) && t in g.transitions
    ensures !AtBound(st, t)
  {
  }

  function Passing(g: WorkflowGraph, id: string): Step {
    Settles(id, false, AllPass(|Outbound(g.transitions, id)|))
  }

  /** A node that succeeds, all its conditions passing, leaves the targets of its transitions active. */
  lemma {:induction false} PassingActivates(g: WorkflowGraph, st: State, id: string)
    requires ReferencesOk(g) && IsUndeclared(g) && Inv(g, st) && id in st.active && !IsTerminalNode(g, id)
    ensures var next := Next(g, st, Passing(g, id));
      && next.Some? && Inv(g, next.value)
      && next.value.active == st.active - {id} + TargetSet(Outbound(g.transitions, id))
  {
    FindNodeKnown(g.nodes, id);
    var node := FindNode(g.nodes, id).value;
    LeftActivates(g, st, node);
    PassingLeads(g, st, node);
    NextKeepsInv(g, st, Passing(g, id));
  }

  lemma {:induction false} LeftActivates(g: WorkflowGraph, st: State, node: Node)
    requires ReferencesOk(g) && IsUndeclared(g) && Inv(g, st) && Settling(g, st, node)
    ensures FireEach(g, Leave(st, node, false), Outbound(g.transitions, node.id)).active ==
      st.active - {node.id} + TargetSet(Outbound(g.transitions, node.id))
  {
    LeaveKeepsInv(g, st, node, false);
    EachActivates(g, Leave(st, node, false), Outbound(g.transitions, node.id));
  }

  lemma {:induction false} PassingLeads(g: WorkflowGraph, st: State, node: Node)
    requires IsUndeclared(g) && node.id in st.active && FindNode(g.nodes, node.id) == Some(node) && node.terminal.None?
    ensures Next(g, st, Passing(g, node.id)) ==
      Some(FireEach(g, Leave(st, node, false), Outbound(g.transitions, node.id)))
  {
    AllFire(g, Leave(st, node, false), Outbound(g.transitions, node.id), 0);
  }

  /** If the target of a node's only transition is active already, that firing meets it so. */
  lemma {:induction false} MeetsActive(g: WorkflowGraph, st: State, t: Transition, to: string)
    requires ReferencesOk(g) && IsUndeclared(g) && KnownNodes(g, st) && t.from in st.active && t.to == to
    requires Outbound(g.transitions, t.from) == [t] && t.to in st.active - {t.from} && !IsTerminalNode(g, t.from)
    ensures MetStep(g, st, Passing(g, t.from), to) == 1
  {
    FindNodeKnown(g.nodes, t.from);
    var node := FindNode(g.nodes, t.from).value;
    var left := Leave(st, node, false);
    assert t in [t];
    assert [t][1..] == [] && AllPass(1)[1..] == [];
    assert MetFiring(g, Fire(g, left, t), [], [], t.to) == 0;
  }

  /** The entry forks into two nodes, and each of them leads to one node only, the same for both. */
  ghost predicate IsDiamond(g: WorkflowGraph, tl: Transition, tr: Transition, meet: Node) {
    && TargetSet(Outbound(g.transitions, g.entry)) == {tl.from, tr.from}
    && Outbound(g.transitions, tl.from) == [tl] && Outbound(g.transitions, tr.from) == [tr]
    && tl.to == meet.id == tr.to && meet in g.nodes
    && tl.from !in {tr.from, g.entry, meet.id} && tr.from !in {g.entry, meet.id}
    && !IsTerminalNode(g, g.entry) && !IsTerminalNode(g, tl.from) && !IsTerminalNode(g, tr.from)
  }

  function DiamondSteps(g: WorkflowGraph, tl: Transition, tr: Transition): seq<Step> {
    [Passing(g, g.entry), Passing(g, tl.from), Passing(g, tr.from)]
  }

  lemma {:induction false} OneTarget(t: Transition)
    ensures TargetSet([t]) == {t.to}
  {
    assert [t][0].to in TargetSet([t]);
  }

  lemma {:induction false} StartIsActive(g: WorkflowGraph)
    requires ReferencesOk(g)
    ensures Inv(g, Start(g, Empty())) && Start(g, Empty()).active == {g.entry}
  {
    StartInv(g);
    FindNodeKnown(g.nodes, g.entry);
  }

  lemma {:induction false} DiamondForks(g: WorkflowGraph, a: string, b: string) returns (s1: State)
    requires ReferencesOk(g) && IsUndeclared(g) && !IsTerminalNode(g, g.entry)
    requires TargetSet(Outbound(g.transitions, g.entry)) == {a, b}
    ensures Next(g, Start(g, Empty()), Passing(g, g.entry)) == Some(s1)
    ensures Inv(g, s1) && s1.active == {a, b}
  {
    StartIsActive(g);
    PassingActivates(g, Start(g, Empty()), g.entry);
    s1 := Next(g, Start(g, Empty()), Passing(g, g.entry)).value;
  }

  lemma {:induction false} BranchArrives(g: WorkflowGraph, st: State, t: Transition) returns (next: State)
    requires ReferencesOk(g) && IsUndeclared(g) && Inv(g, st) && t.from in st.active
    requires Outbound(g.transitions, t.from) == [t] && !IsTerminalNode(g, t.from)
    ensures Next(g, st, Passing(g, t.from)) == Some(next)
    ensures Inv(g, next) && next.active == st.active - {t.from} + {t.to}
  {
    OneTarget(t);
    PassingActivates(g, st, t.from);
    next := Next(g, st, Passing(g, t.from)).value;
  }

  lemma {:induction false} DiamondRun(g: WorkflowGraph, tl: Transition, tr: Transition, meet: Node) returns (st: State)
    requires ReferencesOk(g) && IsUndeclared(g) && IsDiamond(g, tl, tr, meet)
    ensures RunTo(g, Start(g, Empty()), DiamondSteps(g, tl, tr)) == Some(st)
    ensures Met(g, Start(g, Empty()), DiamondSteps(g, tl, tr), meet.id) >= 1
  {
    var s1 := DiamondForks(g, tl.from, tr.from);
    var s2 := BranchArrives(g, s1, tl);
    st := BranchArrives(g, s2, tr);
    MeetsActive(g, s2, tr, meet.id);
    LeadsByThree(
      g, Start(g, Empty()), Passing(g, g.entry), s1, Passing(g, tl.from), s2, Passing(g, tr.from), meet.id);
  }

  /**
   * Where two parallel branches converge on a node without a declared join, the second arrival can
   * meet the first one still to be executed; its own execution is lost for good.
   */
  lemma {:induction false} DiamondLosesAnExecution(g: WorkflowGraph, tl: Transition, tr: Transition, meet: Node)
    returns (st: State)
    requires ReferencesOk(g) && IsUndeclared(g) && IsDiamond(g, tl, tr, meet)
    ensures RunTo(g, Start(g, Empty()), DiamondSteps(g, tl, tr)) == Some(st)
    ensures Shortfall(g, st, meet) >= 1 && !EveryFiringExecutes(g, st, meet)
  {
    st := DiamondRun(g, tl, tr, meet);
    LostFiringsAreThoseMet(g, DiamondSteps(g, tl, tr), meet);
  }

  lemma {:induction false} LeadsByThree(
    g: WorkflowGraph, a: State, s: Step, b: State, t: Step, c: State, u: Step, id: string)
    requires Next(g, a, s) == Some(b) && Next(g, b, t) == Some(c)
    ensures RunTo(g, a, [s, t, u]) == Next(g, c, u) && Met(g, a, [s, t, u], id) >= MetStep(g, c, u, id)
  {
    LeadsBySteps(g, a, s, b, t, c);
    assert [s, t, u][..2] == [s, t];
  }

  lemma {:induction false} DiamondTargets()
    ensures TargetSet(Outbound(DIAMOND.transitions, "start")) == {"left", "right"}
  {
    DiamondEntry();
    var ts := DIAMOND.transitions;
    TargetsOfFirst([ts[0], ts[1]]);
    OneTarget(ts[1]);
    assert [ts[0], ts[1]][1..] == [ts[1]];
  }

  lemma {:induction false} DiamondIsUndeclared()
    ensures IsUndeclared(DIAMOND)
  {
  }

  lemma {:induction false} DiamondGoesOn()
    ensures !IsTerminalNode(DIAMOND, "start") && !IsTerminalNode(DIAMOND, "left") && !IsTerminalNode(DIAMOND, "right")
  {
    DiamondNodes();
  }

  /** There are such graphs among the validated ones. */
  lemma {:induction false} DiamondIsDiamond()
    ensures GraphOk(DIAMOND) && IsUndeclared(DIAMOND)
    ensures IsDiamond(DIAMOND, DIAMOND.transitions[2], DIAMOND.transitions[3], DIAMOND.nodes[3])
  {
    DiamondIsOk();
    DiamondIsUndeclared();
    DiamondGoesOn();
    DiamondLeft();
    DiamondRight();
    DiamondTargets();
    assert DIAMOND.nodes[3] in DIAMOND.nodes;
  }
}
