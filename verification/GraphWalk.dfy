/** The determinable-path walk of the workflow evaluator: a queue instead of rounds, no retries, no waits. */
module GraphWalk {
  import opened Wrappers
  import opened Digraph
  import opened GraphModel
  import opened GraphValidate
  import opened GraphRun
  import opened GraphAccounting
  import opened GraphBound

  datatype WalkState = WalkState(
    counters: map<string, nat>, activations: map<string, nat>, path: seq<string>, queue: seq<string>)

  datatype StopReason =
    | ReachedTerminal(node: string)
    | IndeterminateAt(node: string)
    | LoopBoundAt(transition: string)
    | FailedAt(node: string)
    | SettlementLimit
    | WalkStalled

  /** What the walk makes of a node: guards and predictions are undecidable, succeed or fail. */
  datatype Prediction = Undecidable | Predicted(failed: bool)

  /** The walk's join: without a declared one, the rule of `any`. */
  predicate WalkJoin(g: WorkflowGraph, node: Node, counters: map<string, nat>, activations: map<string, nat>) {
    var join := if node.join.None? then Join(AnyOf, None) else node.join.value;
    DeclaredJoin(join, Inbound(g.transitions, node.id), counters,
                 Count(activations, node.id) - EntryOffset(g, node.id))
  }

  function WalkActivate(g: WorkflowGraph, ws: WalkState, id: string): WalkState {
    if FindNode(g.nodes, id).None? then ws
    else ws.(activations := ws.activations[id := Count(ws.activations, id) + 1], queue := ws.queue + [id])
  }

  function WalkFire(g: WorkflowGraph, ws: WalkState, t: Transition): WalkState {
    var fired := ws.(counters := Bump(ws.counters, t.id));
    match FindNode(g.nodes, t.to)
    case None => fired
    case Some(target) =>
      if WalkJoin(g, target, fired.counters, fired.activations) then WalkActivate(g, fired, t.to) else fired
  }

  // ------------------------------------------------- the walk as a graph run

  /** The graph whose durable joins are the walk's: a missing join is `any`, and nothing is retried. */
  function AsWalked(node: Node): Node {
    node.(join := if node.join.None? then Some(Join(AnyOf, None)) else node.join, maxAttempts := None)
  }

  function AllAsWalked(nodes: seq<Node>): (r: seq<Node>)
    ensures |r| == |nodes| && forall i :: 0 <= i < |nodes| ==> r[i] == AsWalked(nodes[i])
  {
    if nodes == [] then [] else [AsWalked(nodes[0])] + AllAsWalked(nodes[1..])
  }

  function WalkedGraph(g: WorkflowGraph): WorkflowGraph {
    g.(nodes := AllAsWalked(g.nodes))
  }

  function AsVisits(ids: seq<string>): (h: seq<NodeResult>)
    ensures |h| == |ids| && forall i :: 0 <= i < |ids| ==> h[i] == NodeResult(ids[i], 0, false, false)
  {
    seq(|ids|, i requires 0 <= i < |ids| => NodeResult(ids[i], 0, false, false))
  }

  /** A walk seen as a run whose queued nodes have settled too. */
  function Project(ws: WalkState): State {
    State({}, {}, ws.counters, ws.activations, map[], AsVisits(ws.path + ws.queue))
  }

  function Occurrences(ids: seq<string>, id: string): nat {
    if ids == [] then 0
    else Occurrences(ids[..|ids| - 1], id) + (if ids[|ids| - 1] == id then 1 else 0)
  }

  lemma {:induction false} OccurrencesAppend(a: seq<string>, b: seq<string>, id: string)
    ensures Occurrences(a + b, id) == Occurrences(a, id) + Occurrences(b, id)
    decreases |b|
  {
    if b == [] {
      assert a + b == a;
    } else {
      OccurrencesAppend(a, b[..|b| - 1], id);
      assert (a + b)[..|a + b| - 1] == a + b[..|b| - 1];
    }
  }

  lemma {:induction false} VisitsAreDepartures(ids: seq<string>, id: string)
    ensures Departures(AsVisits(ids), id) == Occurrences(ids, id)
    ensures RetriedTimes(AsVisits(ids), id) == 0
  {
    if ids != [] {
      VisitsAreDepartures(ids[..|ids| - 1], id);
      assert AsVisits(ids)[..|ids| - 1] == AsVisits(ids[..|ids| - 1]);
    }
  }

  // ------------------------------------------------------------ the invariant

  /** Join accounting, and no counter above its bound or its source's settlements. */
  ghost predicate Accounts(g: WorkflowGraph, ws: WalkState) {
    && (forall i :: 0 <= i < |g.nodes| ==> JoinAccount(WalkedGraph(g), Project(ws), AsWalked(g.nodes[i])))
    && (forall i :: 0 <= i < |g.transitions| ==> FiringAccount(ws, g.transitions[i]))
    && (forall i :: 0 <= i < |ws.path| ==> ws.path[i] in NodeIds(g.nodes))
    && (forall i :: 0 <= i < |ws.queue| ==> ws.queue[i] in NodeIds(g.nodes))
  }

  ghost predicate FiringAccount(ws: WalkState, t: Transition) {
    && (t.loopBound.Some? ==> Count(ws.counters, t.id) <= t.loopBound.value)
    && Count(ws.counters, t.id) <= Occurrences(ws.path, t.from)
  }

  /** Every activation has been settled or is queued. */
  ghost predicate NothingLost(g: WorkflowGraph, ws: WalkState) {
    forall id :: Occurrences(ws.path, id) + Occurrences(ws.queue, id) == Count(ws.activations, id)
  }

  lemma {:induction false} WalkedReferences(g: WorkflowGraph)
    requires ReferencesOk(g)
    ensures ReferencesOk(WalkedGraph(g)) && NodeIds(WalkedGraph(g).nodes) == NodeIds(g.nodes)
  {
    var w := WalkedGraph(g);
    assert forall i :: 0 <= i < |g.nodes| ==> w.nodes[i].id == g.nodes[i].id;
    forall id | id in NodeIds(g.nodes)
      ensures id in NodeIds(w.nodes)
    {
      var i :| 0 <= i < |g.nodes| && g.nodes[i].id == id;
      assert w.nodes[i].id == id;
    }
  }

  lemma {:induction false} WalkedShape(g: WorkflowGraph, out: Graph)
    requires ShapeOk(g, out)
    ensures ShapeOk(WalkedGraph(g), out)
  {
    var w := WalkedGraph(g);
    forall i | 0 <= i < |w.nodes|
      ensures Reaches(out, w.entry, w.nodes[i].id) && !MinWithoutCount(w.nodes[i])
      ensures w.nodes[i].terminal.Some? ==> Succ(out, w.nodes[i].id) == []
      ensures Coalesces(w.nodes[i]) ==> !OnCycle(out, w.nodes[i].id)
    {
      assert w.nodes[i] == AsWalked(g.nodes[i]);
      assert !MinWithoutCount(g.nodes[i]);
      assert Coalesces(w.nodes[i]) ==> Coalesces(g.nodes[i]);
    }
    var i :| 0 <= i < |g.nodes| && g.nodes[i].terminal.Some?;
    assert w.nodes[i].terminal.Some?;
  }

  lemma {:induction false} WalkedOk(g: WorkflowGraph)
    requires GraphOk(g)
    ensures GraphOk(WalkedGraph(g))
  {
    WalkedReferences(g);
    WalkedShape(g, OutgoingOf(g.transitions));
  }

  // ------------------------------------------------------------ one firing

  lemma {:induction false} FindWalked(g: WorkflowGraph, id: string)
    requires ReferencesOk(g)
    ensures FindNode(WalkedGraph(g).nodes, id) ==
      match FindNode(g.nodes, id)
      case None => None
      case Some(node) => Some(AsWalked(node))
  {
    WalkedReferences(g);
    var found := FindNode(g.nodes, id);
    if found.Some? {
      var i :| 0 <= i < |g.nodes| && g.nodes[i] == found.value;
      FindNodeAt(WalkedGraph(g).nodes, i);
    }
  }

  lemma {:induction false} JoinProjects(g: WorkflowGraph, node: Node, st: State)
    ensures WalkJoin(g, node, st.counters, st.activations) <==> JoinSatisfied(WalkedGraph(g), AsWalked(node), st)
  {
  }

  /** What one firing of the durable engine does to the tables. */
  lemma {:induction false} FireTables(w: WorkflowGraph, st: State, t: Transition, target: Node)
    requires FindNode(w.nodes, t.to) == Some(target)
    ensures Fire(w, st, t).counters == Bump(st.counters, t.id)
    ensures Fire(w, st, t).activations ==
      if JoinSatisfied(w, target, st.(counters := Bump(st.counters, t.id))) then Bump(st.activations, t.to)
      else st.activations
  {
    FireForm(w, st, t, target);
  }

  /** What one firing of the walk does to the tables. */
  lemma {:induction false} WalkFireTables(g: WorkflowGraph, ws: WalkState, t: Transition, target: Node)
    requires FindNode(g.nodes, t.to) == Some(target)
    ensures WalkFire(g, ws, t).counters == Bump(ws.counters, t.id)
    ensures WalkFire(g, ws, t).activations ==
      if WalkJoin(g, target, Bump(ws.counters, t.id), ws.activations) then Bump(ws.activations, t.to)
      else ws.activations
  {
    assert FindNode(g.nodes, target.id).Some?;
  }

  /** The walk fires as the durable engine would on the graph as walked. */
  lemma {:induction false} FireProjects(g: WorkflowGraph, ws: WalkState, t: Transition)
    requires ReferencesOk(g) && t in g.transitions
    ensures Project(WalkFire(g, ws, t)).counters == Fire(WalkedGraph(g), Project(ws), t).counters
    ensures Project(WalkFire(g, ws, t)).activations == Fire(WalkedGraph(g), Project(ws), t).activations
  {
    FindNodeKnown(g.nodes, t.to);
    var target := FindNode(g.nodes, t.to).value;
    FindWalked(g, t.to);
    WalkFireTables(g, ws, t, target);
    FireTables(WalkedGraph(g), Project(ws), t, AsWalked(target));
    JoinProjects(g, target, Project(ws).(counters := Bump(ws.counters, t.id)));
  }

  lemma {:induction false} WalkFireKeepsJoins(g: WorkflowGraph, ws: WalkState, t: Transition, i: nat)
    requires ReferencesOk(g) && t in g.transitions && i < |g.nodes|
    requires JoinAccount(WalkedGraph(g), Project(ws), AsWalked(g.nodes[i]))
    ensures JoinAccount(WalkedGraph(g), Project(WalkFire(g, ws, t)), AsWalked(g.nodes[i]))
  {
    WalkedReferences(g);
    FireProjects(g, ws, t);
    FireKeepsJoin(WalkedGraph(g), Project(ws), t, i);
  }

  predicate MayWalk(ws: WalkState, t: Transition) {
    && (t.loopBound.Some? ==> Count(ws.counters, t.id) < t.loopBound.value)
    && Count(ws.counters, t.id) + 1 <= Occurrences(ws.path, t.from)
  }

  lemma {:induction false} WalkFireForm(g: WorkflowGraph, ws: WalkState, t: Transition)
    requires ReferencesOk(g) && t in g.transitions
    ensures var next := WalkFire(g, ws, t);
      && next.path == ws.path && next.counters == Bump(ws.counters, t.id)
      && ((next.queue == ws.queue && next.activations == ws.activations)
          || (next.queue == ws.queue + [t.to] && next.activations == Bump(ws.activations, t.to)))
  {
  }

  lemma {:induction false} WalkFireKeepsAccounts(g: WorkflowGraph, ws: WalkState, t: Transition)
    requires ReferencesOk(g) && Accounts(g, ws) && t in g.transitions && MayWalk(ws, t)
    ensures Accounts(g, WalkFire(g, ws, t))
  {
    var next := WalkFire(g, ws, t);
    WalkFireForm(g, ws, t);
    forall i | 0 <= i < |g.nodes|
      ensures JoinAccount(WalkedGraph(g), Project(next), AsWalked(g.nodes[i]))
    {
      WalkFireKeepsJoins(g, ws, t, i);
    }
    forall i | 0 <= i < |g.transitions|
      ensures FiringAccount(next, g.transitions[i])
    {
      assert FiringAccount(ws, g.transitions[i]);
      if g.transitions[i].id == t.id {
        SameIdSameTransition(g.transitions, g.transitions[i], t);
      }
    }
  }

  lemma {:induction false} WalkFireLosesNothing(g: WorkflowGraph, ws: WalkState, t: Transition)
    requires ReferencesOk(g) && t in g.transitions && NothingLost(g, ws)
    ensures NothingLost(g, WalkFire(g, ws, t))
  {
    var next := WalkFire(g, ws, t);
    WalkFireForm(g, ws, t);
    forall id
      ensures Occurrences(next.path, id) + Occurrences(next.queue, id) == Count(next.activations, id)
    {
      OccurrencesAppend(ws.queue, [t.to], id);
      assert Occurrences([t.to], id) == if t.to == id then 1 else 0;
    }
  }

  // ------------------------------------------------------------ settlements

  function Settled(ws: WalkState): WalkState
    requires ws.queue != []
  {
    ws.(path := ws.path + [ws.queue[0]], queue := ws.queue[1..])
  }

  /** The transitions a settlement has still to look at. */
  ghost predicate ToWalk(g: WorkflowGraph, ws: WalkState, ts: seq<Transition>) {
    && DistinctIds(ts)
    && forall i :: 0 <= i < |ts| ==>
         ts[i] in g.transitions && Count(ws.counters, ts[i].id) + 1 <= Occurrences(ws.path, ts[i].from)
  }

  lemma {:induction false} SettledMoves(ws: WalkState, id: string)
    requires ws.queue != []
    ensures Occurrences(Settled(ws).path, id) == Occurrences(ws.path, id) + (if id == ws.queue[0] then 1 else 0)
    ensures Occurrences(Settled(ws).path, id) + Occurrences(Settled(ws).queue, id) ==
            Occurrences(ws.path, id) + Occurrences(ws.queue, id)
  {
    var id0 := ws.queue[0];
    OccurrencesAppend(ws.path, [id0], id);
    OccurrencesAppend([id0], ws.queue[1..], id);
    assert [id0] + ws.queue[1..] == ws.queue;
    assert Occurrences([id0], id) == if id == id0 then 1 else 0;
  }

  lemma {:induction false} SettledLosesNothing(g: WorkflowGraph, ws: WalkState)
    requires NothingLost(g, ws) && ws.queue != []
    ensures NothingLost(g, Settled(ws))
  {
    forall id
      ensures Occurrences(Settled(ws).path, id) + Occurrences(Settled(ws).queue, id) == Count(Settled(ws).activations, id)
    {
      SettledMoves(ws, id);
    }
  }

  lemma {:induction false} SettledKeepsAccounts(g: WorkflowGraph, ws: WalkState)
    requires Accounts(g, ws) && ws.queue != []
    ensures Accounts(g, Settled(ws))
  {
    var next := Settled(ws);
    forall i | 0 <= i < |g.nodes|
      ensures JoinAccount(WalkedGraph(g), Project(next), AsWalked(g.nodes[i]))
    {
      assert JoinAccount(WalkedGraph(g), Project(ws), AsWalked(g.nodes[i]));
    }
    forall i | 0 <= i < |g.transitions|
      ensures FiringAccount(next, g.transitions[i])
    {
      assert FiringAccount(ws, g.transitions[i]);
      SettledMoves(ws, g.transitions[i].from);
    }
  }

  lemma {:induction false} SettledToWalk(g: WorkflowGraph, ws: WalkState)
    requires ReferencesOk(g) && Accounts(g, ws) && ws.queue != []
    ensures ToWalk(g, Settled(ws), Outbound(g.transitions, ws.queue[0]))
  {
    var id0, next := ws.queue[0], Settled(ws);
    var ts := Outbound(g.transitions, id0);
    OutboundDistinct(g.transitions, id0);
    forall i | 0 <= i < |ts|
      ensures ts[i] in g.transitions
      ensures Count(next.counters, ts[i].id) + 1 <= Occurrences(next.path, ts[i].from)
    {
      assert ts[i] in ts;
      var k :| 0 <= k < |g.transitions| && g.transitions[k] == ts[i];
      assert FiringAccount(ws, g.transitions[k]);
      SettledMoves(ws, id0);
    }
  }

  lemma {:induction false} ToWalkRest(g: WorkflowGraph, ws: WalkState, ts: seq<Transition>)
    requires ReferencesOk(g) && ToWalk(g, ws, ts) && ts != []
    ensures ToWalk(g, ws, ts[1..]) && ToWalk(g, WalkFire(g, ws, ts[0]), ts[1..])
  {
    WalkFireForm(g, ws, ts[0]);
    assert forall i :: 0 <= i < |ts[1..]| ==> ts[1..][i] == ts[i + 1];
  }

  /** A transition out of the node has fired as often as its bound allows. */
  ghost predicate Exhausted(g: WorkflowGraph, ws: WalkState, id: string, transition: string) {
    exists t :: t in Outbound(g.transitions, id) && t.id == transition
      && t.loopBound.Some? && Count(ws.counters, t.id) == t.loopBound.value
  }

  lemma {:induction false} ExhaustedAt(g: WorkflowGraph, ws: WalkState, t: Transition, id: string)
    requires Accounts(g, ws) && t in Outbound(g.transitions, id)
    requires t.loopBound.Some? && Count(ws.counters, t.id) >= t.loopBound.value
    ensures Exhausted(g, ws, id, t.id)
  {
    var k :| 0 <= k < |g.transitions| && g.transitions[k] == t;
    assert FiringAccount(ws, g.transitions[k]);
  }

  /** None of the first transitions that pass has used up its bound. */
  predicate WalkedPast(ws0: WalkState, ts: seq<Transition>, decisions: seq<Decision>, k: nat)
    requires k <= |ts| == |decisions|
  {
    forall i :: 0 <= i < k ==>
      decisions[i] == Passes && ts[i].loopBound.Some? ==> Count(ws0.counters, ts[i].id) < ts[i].loopBound.value
  }

  /** The first transitions have fired, each once and exactly if its condition passes, and no other one has. */
  ghost predicate FiredFirst(ws: WalkState, ws0: WalkState, ts: seq<Transition>, decisions: seq<Decision>, k: nat)
    requires k <= |ts| == |decisions|
  {
    && WalkedPast(ws0, ts, decisions, k) && ws0.queue <= ws.queue && ws.path == ws0.path
    && (forall i :: 0 <= i < k ==>
          Count(ws.counters, ts[i].id) == Count(ws0.counters, ts[i].id) + (if decisions[i] == Passes then 1 else 0))
    && forall id :: (forall i :: 0 <= i < k ==> ts[i].id != id) ==> Count(ws.counters, id) == Count(ws0.counters, id)
  }

  /** A transition without a condition always passes. */
  predicate DecidesAll(ts: seq<Transition>, decisions: seq<Decision>) {
    |decisions| == |ts| && forall i :: 0 <= i < |ts| && !ts[i].conditional ==> decisions[i] == Passes
  }

  /** Some transition has passed. */
  predicate SomePasses(decisions: seq<Decision>) {
    exists i :: 0 <= i < |decisions| && decisions[i] == Passes
  }

  /** All outgoing transitions have fired as their conditions say, or those up to one that had used up its bound. */
  ghost predicate FiredAsDecided(
    ws: WalkState, ws0: WalkState, ts: seq<Transition>, decisions: seq<Decision>, exceeded: Option<string>)
  {
    && DecidesAll(ts, decisions)
    && match exceeded
       case None => FiredFirst(ws, ws0, ts, decisions, |ts|)
       case Some(id) => exists k :: 0 <= k < |ts| && StopsAt(ws, ws0, ts, decisions, k) && ts[k].id == id
  }

  ghost predicate StopsAt(ws: WalkState, ws0: WalkState, ts: seq<Transition>, decisions: seq<Decision>, k: nat)
    requires k < |ts| == |decisions|
  {
    FiredFirst(ws, ws0, ts, decisions, k) && decisions[k] == Passes && !WalkedPast(ws0, ts, decisions, k + 1)
  }

  predicate IsAtBound(ws: WalkState, t: Transition) {
    t.loopBound.Some? && Count(ws.counters, t.id) >= t.loopBound.value
  }

  lemma {:induction false} NotYetFired(ws: WalkState, ws0: WalkState, ts: seq<Transition>, decisions: seq<Decision>, i: nat)
    requires DistinctIds(ts) && i < |ts| == |decisions| && FiredFirst(ws, ws0, ts, decisions, i)
    ensures Count(ws.counters, ts[i].id) == Count(ws0.counters, ts[i].id)
    ensures decisions[i] == Passes && IsAtBound(ws, ts[i]) ==> StopsAt(ws, ws0, ts, decisions, i)
  {
  }

  lemma {:induction false} OthersAsBefore(ws: WalkState, ws0: WalkState, ts: seq<Transition>, decisions: seq<Decision>, i: nat)
    requires i < |ts| == |decisions| && FiredFirst(ws, ws0, ts, decisions, i)
    ensures forall id :: (forall j :: 0 <= j < i + 1 ==> ts[j].id != id) ==>
      Count(ws.counters, id) == Count(ws0.counters, id)
  {
    forall id | forall j :: 0 <= j < i + 1 ==> ts[j].id != id
      ensures Count(ws.counters, id) == Count(ws0.counters, id)
    {
      assert forall j :: 0 <= j < i ==> ts[j].id != id;
    }
  }

  lemma {:induction false} BlockedNext(ws: WalkState, ws0: WalkState, ts: seq<Transition>, decisions: seq<Decision>, i: nat)
    requires DistinctIds(ts) && i < |ts| == |decisions| && FiredFirst(ws, ws0, ts, decisions, i) && decisions[i] != Passes
    ensures FiredFirst(ws, ws0, ts, decisions, i + 1)
  {
    NotYetFired(ws, ws0, ts, decisions, i);
    OthersAsBefore(ws, ws0, ts, decisions, i);
  }

  lemma {:induction false} FiredNext(
    next: WalkState, ws: WalkState, ws0: WalkState, ts: seq<Transition>, decisions: seq<Decision>, i: nat)
    requires DistinctIds(ts) && i < |ts| == |decisions| && FiredFirst(ws, ws0, ts, decisions, i)
    requires decisions[i] == Passes && !IsAtBound(ws, ts[i])
    requires next.counters == Bump(ws.counters, ts[i].id) && next.path == ws.path && ws.queue <= next.queue
    ensures FiredFirst(next, ws0, ts, decisions, i + 1)
  {
    NotYetFired(ws, ws0, ts, decisions, i);
    OthersAsBefore(ws, ws0, ts, decisions, i);
    BumpCounts(ws.counters, ts[i].id);
    forall j | 0 <= j < i + 1
      ensures Count(next.counters, ts[j].id) == Count(ws0.counters, ts[j].id) + (if decisions[j] == Passes then 1 else 0)
    {
    }
    assert WalkedPast(ws0, ts, decisions, i + 1);
  }

  lemma {:induction false} BumpCounts(counters: map<string, nat>, id: string)
    ensures forall x :: Count(Bump(counters, id), x) == Count(counters, x) + (if x == id then 1 else 0)
  {
  }

  /** Whatever the conditions are: one that throws does not pass. */
  method AnyConditions(ts: seq<Transition>) returns (decisions: seq<Decision>)
    ensures DecidesAll(ts, decisions)
  {
    decisions := [];
    for i := 0 to |ts|
      invariant |decisions| == i && forall j :: 0 <= j < i && !ts[j].conditional ==> decisions[j] == Passes
    {
      var passes: bool := *;
      decisions := decisions + [if passes || !ts[i].conditional then Passes else Blocks];
    }
  }

  lemma {:induction false} OneMoreDecided(decisions: seq<Decision>, i: nat)
    requires i < |decisions|
    ensures SomePasses(decisions[..i + 1]) <==> SomePasses(decisions[..i]) || decisions[i] == Passes
    ensures decisions[..|decisions|] == decisions
  {
    assert decisions[..i + 1][i] == decisions[i];
    if SomePasses(decisions[..i]) {
      var j :| 0 <= j < i && decisions[..i][j] == Passes;
      assert decisions[..i + 1][j] == Passes;
    }
  }

  /** Where the loop over the transitions stands. */
  ghost predicate Walking(
    g: WorkflowGraph, ws: WalkState, ws0: WalkState, ts: seq<Transition>, decisions: seq<Decision>, i: nat)
    requires i <= |ts| == |decisions|
  {
    && Accounts(g, ws) && NothingLost(g, ws) && ToWalk(g, ws, ts[i..])
    && FiredFirst(ws, ws0, ts, decisions, i)
  }

  lemma {:induction false} WalkingOn(
    g: WorkflowGraph, ws: WalkState, ws0: WalkState, ts: seq<Transition>, decisions: seq<Decision>, i: nat)
    requires ReferencesOk(g) && DistinctIds(ts) && i < |ts| == |decisions| && Walking(g, ws, ws0, ts, decisions, i)
    ensures decisions[i] != Passes ==> Walking(g, ws, ws0, ts, decisions, i + 1)
    ensures decisions[i] == Passes && !IsAtBound(ws, ts[i]) ==> Walking(g, WalkFire(g, ws, ts[i]), ws0, ts, decisions, i + 1)
  {
    var t := ts[i];
    assert ts[i..][0] == t && ts[i..][1..] == ts[i + 1..];
    ToWalkRest(g, ws, ts[i..]);
    if decisions[i] != Passes {
      BlockedNext(ws, ws0, ts, decisions, i);
    } else if !IsAtBound(ws, t) {
      WalkFireKeepsAccounts(g, ws, t);
      WalkFireLosesNothing(g, ws, t);
      WalkFireForm(g, ws, t);
      FiredNext(WalkFire(g, ws, t), ws, ws0, ts, decisions, i);
    }
  }

  lemma {:induction false} WalkingStops(
    g: WorkflowGraph, ws: WalkState, ws0: WalkState, id: string, decisions: seq<Decision>, i: nat)
    requires DistinctIds(Outbound(g.transitions, id)) && DecidesAll(Outbound(g.transitions, id), decisions)
    requires i < |decisions| && Walking(g, ws, ws0, Outbound(g.transitions, id), decisions, i)
    requires decisions[i] == Passes && IsAtBound(ws, Outbound(g.transitions, id)[i])
    ensures var t := Outbound(g.transitions, id)[i];
      && FiredAsDecided(ws, ws0, Outbound(g.transitions, id), decisions, Some(t.id))
      && Exhausted(g, ws, id, t.id)
  {
    var ts := Outbound(g.transitions, id);
    NotYetFired(ws, ws0, ts, decisions, i);
    ExhaustedAt(g, ws, ts[i], id);
  }

  /** The loop over the outgoing transitions of a settled node. */
  method FireWalked(g: WorkflowGraph, ws0: WalkState, id: string)
    returns (ws: WalkState, fired: nat, exceeded: Option<string>, decisions: seq<Decision>)
    requires ReferencesOk(g) && Accounts(g, ws0) && NothingLost(g, ws0)
    requires ToWalk(g, ws0, Outbound(g.transitions, id))
    ensures Accounts(g, ws) && NothingLost(g, ws)
    ensures FiredAsDecided(ws, ws0, Outbound(g.transitions, id), decisions, exceeded)
    ensures exceeded.None? ==> (fired > 0 <==> SomePasses(decisions))
    ensures exceeded.Some? ==> Exhausted(g, ws, id, exceeded.value)
  {
    var ts := Outbound(g.transitions, id);
    OutboundDistinct(g.transitions, id);
    decisions := AnyConditions(ts);
    ws, fired, exceeded := ws0, 0, None;
    assert ts[0..] == ts;
    for i := 0 to |ts|
      invariant Walking(g, ws, ws0, ts, decisions, i)
      invariant fired > 0 <==> SomePasses(decisions[..i])
    {
      var t := ts[i];
      WalkingOn(g, ws, ws0, ts, decisions, i);
      OneMoreDecided(decisions, i);
      if decisions[i] == Passes {
        if t.loopBound.Some? && Count(ws.counters, t.id) >= t.loopBound.value {
          exceeded := Some(t.id);
          WalkingStops(g, ws, ws0, id, decisions, i);
          return;
        }
        ws := WalkFire(g, ws, t);
        fired := fired + 1;
      }
    }
    assert decisions[..|ts|] == decisions;
  }

  // ------------------------------------------------------------ whole walks

  function WalkStart(g: WorkflowGraph): WalkState {
    WalkActivate(g, WalkState(map[], map[], [], []), g.entry)
  }

  lemma {:induction false} WalkStartKeeps(g: WorkflowGraph)
    requires ReferencesOk(g)
    ensures Accounts(g, WalkStart(g)) && NothingLost(g, WalkStart(g)) && WalkStart(g).queue == [g.entry]
  {
    FindNodeKnown(g.nodes, g.entry);
    var ws := WalkStart(g);
    assert ws == WalkState(map[], map[g.entry := 1], [], [g.entry]);
    forall i | 0 <= i < |g.nodes|
      ensures JoinAccount(WalkedGraph(g), Project(ws), AsWalked(g.nodes[i]))
    {
      StartJoin(WalkedGraph(g), Project(ws), AsWalked(g.nodes[i]));
    }
    forall id
      ensures Occurrences([g.entry], id) == Count(ws.activations, id)
    {
    }
  }

  lemma {:induction false} ProjectionVisits(g: WorkflowGraph, ws: WalkState, i: nat)
    requires NothingLost(g, ws) && i < |WalkedGraph(g).nodes|
    ensures VisitAccount(Project(ws), WalkedGraph(g).nodes[i])
  {
    VisitsAreDepartures(ws.path + ws.queue, WalkedGraph(g).nodes[i].id);
    OccurrencesAppend(ws.path, ws.queue, WalkedGraph(g).nodes[i].id);
  }

  lemma {:induction false} ProjectionCounters(ws: WalkState, t: Transition)
    requires FiringAccount(ws, t)
    ensures CounterAccount(Project(ws), t)
  {
    VisitsAreDepartures(ws.path + ws.queue, t.from);
    OccurrencesAppend(ws.path, ws.queue, t.from);
  }

  lemma {:induction false} ProjectionInv(g: WorkflowGraph, ws: WalkState)
    requires ReferencesOk(g) && Accounts(g, ws) && NothingLost(g, ws)
    ensures Inv(WalkedGraph(g), Project(ws))
  {
    WalkedReferences(g);
    var w, st := WalkedGraph(g), Project(ws);
    forall i | 0 <= i < |w.nodes|
      ensures JoinAccount(w, st, w.nodes[i]) && VisitAccount(st, w.nodes[i])
    {
      assert w.nodes[i] == AsWalked(g.nodes[i]);
      assert JoinAccount(w, st, AsWalked(g.nodes[i]));
      ProjectionVisits(g, ws, i);
    }
    forall i | 0 <= i < |w.transitions|
      ensures CounterAccount(st, w.transitions[i])
    {
      assert FiringAccount(ws, g.transitions[i]);
      ProjectionCounters(ws, g.transitions[i]);
    }
  }

  ghost function WalkBound(g: WorkflowGraph): nat
    requires GraphOk(g)
  {
    WalkedOk(g);
    RunBound(WalkedGraph(g))
  }

  /** Settled and queued together stay within the bound of the graph. */
  lemma {:induction false} WalkWithinBound(g: WorkflowGraph, ws: WalkState)
    requires GraphOk(g) && Accounts(g, ws) && NothingLost(g, ws)
    ensures |ws.path| + |ws.queue| <= WalkBound(g)
  {
    WalkedOk(g);
    ProjectionInv(g, ws);
    SettlementsWithinBound(WalkedGraph(g), Project(ws));
  }

  /** What the reasons to stop at a node say about the walk that gives them. */
  ghost predicate StoppedAt(g: WorkflowGraph, last: WalkState, stop: StopReason) {
    match stop
    case ReachedTerminal(id) =>
      last.path != [] && last.path[|last.path| - 1] == id && IsTerminalNode(g, id)
    case LoopBoundAt(t) =>
      last.path != [] && Exhausted(g, last, last.path[|last.path| - 1], t)
    case FailedAt(id) =>
      last.path != [] && last.path[|last.path| - 1] == id && !IsTerminalNode(g, id)
    case IndeterminateAt(id) => last.queue != [] && last.queue[0] == id && !IsTerminalNode(g, id)
    case SettlementLimit => true
    case WalkStalled => last.queue == []
  }

  /**
   * The walk, under whatever guards, predictions and conditions come out, with or without its
   * backstop: it ends by the bound of the graph, and the backstop stops it only if that is larger.
   */
  method Walk(g: WorkflowGraph, backstop: Option<nat>) returns (path: seq<string>, stop: StopReason, ghost last: WalkState)
    requires GraphOk(g)
    ensures Accounts(g, last) && NothingLost(g, last) && last.path == path
    ensures |path| <= WalkBound(g)
    ensures stop == SettlementLimit ==> backstop.Some? && backstop.value == |path| < WalkBound(g)
    ensures stop == WalkStalled ==> forall id :: Occurrences(path, id) == Count(last.activations, id)
    ensures StoppedAt(g, last, stop)
    ensures EndsAtTerminal(g, path, Some(stop))
  {
    var ws := WalkStart(g);
    WalkStartKeeps(g);
    WalkWithinBound(g, ws);
    while |ws.queue| > 0
      invariant Accounts(g, ws) && NothingLost(g, ws) && |ws.path| + |ws.queue| <= WalkBound(g)
      invariant backstop.Some? ==> |ws.path| <= backstop.value
      invariant NoTerminalIn(g, ws.path)
      decreases WalkBound(g) - |ws.path|
    {
      if backstop.Some? && |ws.path| >= backstop.value {
        return ws.path, SettlementLimit, ws;
      }
      var next, stopped := WalkNext(g, ws);
      ws := next;
      WalkWithinBound(g, ws);
      if stopped.Some? {
        return ws.path, stopped.value, ws;
      }
    }
    LastIsSettled(g, ws);
    return ws.path, WalkStalled, ws;
  }

  /** The walk's next step, and what it does to its path. */
  method WalkNext(g: WorkflowGraph, ws: WalkState) returns (next: WalkState, stop: Option<StopReason>)
    requires ReferencesOk(g) && Accounts(g, ws) && NothingLost(g, ws) && ws.queue != [] && NoTerminalIn(g, ws.path)
    ensures Accounts(g, next) && NothingLost(g, next)
    ensures stop.Some? ==> StoppedAt(g, next, stop.value) && stop.value != SettlementLimit && stop.value != WalkStalled
    ensures next.path == ws.path + [ws.queue[0]] || (next == ws && stop == Some(IndeterminateAt(ws.queue[0])))
    ensures EndsAtTerminal(g, next.path, stop)
  {
    var prediction, decisions;
    next, stop, prediction, decisions := WalkNode(g, ws);
    WalkedPath(g, ws, prediction, decisions, next, stop);
  }

  /** A terminal node can only be the last of the path, and then it is the reason to stop. */
  predicate EndsAtTerminal(g: WorkflowGraph, path: seq<string>, stop: Option<StopReason>) {
    if stop.Some? && stop.value.ReachedTerminal? then path != [] && NoTerminalIn(g, path[..|path| - 1])
    else NoTerminalIn(g, path)
  }

  lemma {:induction false} LastIsSettled(g: WorkflowGraph, ws: WalkState)
    requires NothingLost(g, ws) && ws.queue == []
    ensures forall id :: Occurrences(ws.path, id) == Count(ws.activations, id)
  {
    assert forall id :: Occurrences(ws.queue, id) == 0;
  }

  lemma {:induction false} SettledKeeps(g: WorkflowGraph, ws: WalkState)
    requires ReferencesOk(g) && Accounts(g, ws) && NothingLost(g, ws) && ws.queue != []
    ensures ws.queue[0] in NodeIds(g.nodes)
    ensures Accounts(g, Settled(ws)) && NothingLost(g, Settled(ws))
    ensures ToWalk(g, Settled(ws), Outbound(g.transitions, ws.queue[0]))
  {
    SettledKeepsAccounts(g, ws);
    SettledLosesNothing(g, ws);
    SettledToWalk(g, ws);
  }

  /**
   * What settling the first queued node comes to: an undecidable one stops the walk as it is, a
   * terminal one behind it, and otherwise the conditions decide; a failure stops it if none passes.
   */
  ghost predicate NodeWalked(
    g: WorkflowGraph, ws: WalkState, prediction: Prediction, decisions: seq<Decision>,
    next: WalkState, stop: Option<StopReason>)
    requires ws.queue != []
  {
    var id, ts := ws.queue[0], Outbound(g.transitions, ws.queue[0]);
    if IsTerminalNode(g, id) then next == Settled(ws) && stop == Some(ReachedTerminal(id))
    else if prediction.Undecidable? then next == ws && stop == Some(IndeterminateAt(id))
    else
      match stop
      case Some(LoopBoundAt(t)) => FiredAsDecided(next, Settled(ws), ts, decisions, Some(t))
      case _ =>
        && FiredAsDecided(next, Settled(ws), ts, decisions, None)
        && stop == if prediction == Predicted(true) && !SomePasses(decisions) then Some(FailedAt(id)) else None
  }

  predicate NoTerminalIn(g: WorkflowGraph, path: seq<string>) {
    forall i :: 0 <= i < |path| ==> !IsTerminalNode(g, path[i])
  }

  /** The path grows by a settled node, and the walk goes on behind no terminal one. */
  lemma {:induction false} WalkedPath(
    g: WorkflowGraph, ws: WalkState, prediction: Prediction, decisions: seq<Decision>,
    next: WalkState, stop: Option<StopReason>)
    requires ws.queue != [] && NodeWalked(g, ws, prediction, decisions, next, stop)
    ensures next.path == ws.path + [ws.queue[0]] || (next == ws && stop == Some(IndeterminateAt(ws.queue[0])))
    ensures IsTerminalNode(g, ws.queue[0]) <==> stop == Some(ReachedTerminal(ws.queue[0]))
    ensures NoTerminalIn(g, ws.path) ==> EndsAtTerminal(g, next.path, stop)
    ensures stop.Some? ==> stop.value != SettlementLimit && stop.value != WalkStalled
  {
  }

  /** Settles the first queued node, or stops at it. */
  method WalkNode(g: WorkflowGraph, ws: WalkState)
    returns (next: WalkState, stop: Option<StopReason>, prediction: Prediction, decisions: seq<Decision>)
    requires ReferencesOk(g) && Accounts(g, ws) && NothingLost(g, ws) && ws.queue != []
    ensures Accounts(g, next) && NothingLost(g, next)
    ensures NodeWalked(g, ws, prediction, decisions, next, stop)
    ensures stop.Some? ==> StoppedAt(g, next, stop.value)
  {
    var id := ws.queue[0];
    SettledKeeps(g, ws);
    FindNodeKnown(g.nodes, id);
    var node := FindNode(g.nodes, id).value;
    prediction, decisions := *, [];
    if node.terminal.None? && prediction.Undecidable? {
      next, stop := ws, Some(IndeterminateAt(id));
      return;
    }
    next, stop := Settled(ws), None;
    if node.terminal.Some? {
      stop := Some(ReachedTerminal(id));
      return;
    }
    var fired, exceeded;
    next, fired, exceeded, decisions := FireWalked(g, next, id);
    if exceeded.Some? {
      stop := Some(LoopBoundAt(exceeded.value));
    } else if fired == 0 && prediction == Predicted(true) {
      stop := Some(FailedAt(id));
    }
  }

  // --------------------------------------------- where the walk is no mirror

  /** A run and a walk in which the same transitions have fired, each with its own accounts in order. */
  ghost predicate SameFirings(g: WorkflowGraph, node: Node, st: State, ws: WalkState) {
    && st.counters == ws.counters && JoinAccount(g, st, node)
    && JoinAccount(WalkedGraph(g), Project(ws), AsWalked(node))
  }

  /** Upon one more firing they decide alike whether it activates the node. */
  ghost predicate DecideAlike(g: WorkflowGraph, node: Node, st: State, ws: WalkState, t: Transition) {
    WalkJoin(g, node, Bump(ws.counters, t.id), ws.activations) <==>
    JoinSatisfied(g, node, st.(counters := Bump(st.counters, t.id)))
  }

  /**
   * They do exactly if a join is declared or no other transition into the node has fired more often
   * than this one: without a declared join the run counts all firings, the walk those of the busiest.
   */
  lemma {:induction false} DecideAlikeIff(g: WorkflowGraph, node: Node, st: State, ws: WalkState, t: Transition)
    requires DistinctIds(g.transitions) && t in g.transitions && t.to == node.id && SameFirings(g, node, st, ws)
    ensures DecideAlike(g, node, st, ws, t) <==>
      node.join.Some? || Count(st.counters, t.id) == MaxFirings(Inbound(g.transitions, node.id), st.counters)
  {
    InboundDistinct(g.transitions, node.id);
    BumpOnce(Inbound(g.transitions, node.id), st.counters, t);
  }

  /** Whatever has fired, the walk and the run decide alike. */
  ghost predicate JoinsAgree(g: WorkflowGraph, node: Node) {
    forall st, ws, t :: SameFirings(g, node, st, ws) && t in Inbound(g.transitions, node.id) ==>
      DecideAlike(g, node, st, ws, t)
  }

  lemma {:induction false} OneInboundIsMax(ts: seq<Transition>, counters: map<string, nat>, t: Transition)
    requires |ts| <= 1 && t in ts
    ensures Count(counters, t.id) == MaxFirings(ts, counters)
  {
    assert ts[1..] == [];
  }

  /** With one of two transitions fired the other one's firing activates the node in the run alone. */
  lemma {:induction false} SecondEntryDiffers(g: WorkflowGraph, node: Node) returns (st: State, ws: WalkState, t: Transition)
    requires DistinctIds(g.transitions) && node.join.None? && |Inbound(g.transitions, node.id)| >= 2
    ensures SameFirings(g, node, st, ws) && t in Inbound(g.transitions, node.id)
    ensures st.activations == ws.activations && !DecideAlike(g, node, st, ws, t)
  {
    var inbound := Inbound(g.transitions, node.id);
    var first := inbound[0];
    t := inbound[1];
    var counters: map<string, nat> := Bump(map[], first.id);
    var activations: map<string, nat> := map[node.id := 1 + EntryOffset(g, node.id)];
    InboundDistinct(g.transitions, node.id);
    NothingFired(inbound);
    BumpOnce(inbound, map[], first);
    st := State({}, {}, counters, activations, map[], []);
    ws := WalkState(counters, activations, [], []);
    assert Inbound(WalkedGraph(g).transitions, node.id) == inbound;
    DecideAlikeIff(g, node, st, ws, t);
  }

  /** The walk mirrors the engine's joins exactly where joins are declared or nothing joins. */
  lemma {:induction false} JoinsAgreeIffDeclared(g: WorkflowGraph, node: Node)
    requires DistinctIds(g.transitions)
    ensures JoinsAgree(g, node) <==> node.join.Some? || |Inbound(g.transitions, node.id)| <= 1
  {
    if node.join.Some? || |Inbound(g.transitions, node.id)| <= 1 {
      forall st, ws, t | SameFirings(g, node, st, ws) && t in Inbound(g.transitions, node.id)
        ensures DecideAlike(g, node, st, ws, t)
      {
        DecideAlikeIff(g, node, st, ws, t);
        if node.join.None? {
          OneInboundIsMax(Inbound(g.transitions, node.id), st.counters, t);
        }
      }
    } else {
      var st, ws, t := SecondEntryDiffers(g, node);
      assert !JoinsAgree(g, node);
    }
  }
}
