/** The bound on settlements is attained: loops and retries that use up all they are allowed. */
module GraphAttained {
  import opened Wrappers
  import opened Digraph
  import opened GraphModel
  import opened GraphValidate
  import opened GraphRun
  import opened GraphAccounting
  import opened GraphBound
  import opened GraphRounds
  import opened GraphExamples

  /** A node that may be tried so often loops so often, and then leaves for the end. */
  function Looping(loops: nat, attempts: nat): WorkflowGraph {
    WorkflowGraph(
      "work",
      [Node("work", None, None, Some(attempts)), End("end")],
      [Transition("again", "work", "work", Some(loops), true), Transition("done", "work", "end", Some(1), true)])
  }

  lemma {:induction false} LoopingNodes(loops: nat, attempts: nat)
    ensures var g := Looping(loops, attempts);
      FindNode(g.nodes, "work") == Some(g.nodes[0]) && FindNode(g.nodes, "end") == Some(g.nodes[1])
  {
    var g := Looping(loops, attempts);
    FindNodeAt(g.nodes, 0);
    FindNodeAt(g.nodes, 1);
  }

  lemma {:induction false} LoopingTransitions(loops: nat, attempts: nat)
    ensures var ts := Looping(loops, attempts).transitions;
      && Outbound(ts, "work") == ts && Outbound(ts, "end") == []
      && Inbound(ts, "work") == [ts[0]] && Inbound(ts, "end") == [ts[1]]
      && ts == [ts[0], ts[1]]
  {
    var ts := Looping(loops, attempts).transitions;
    OfTwo(ts[0], ts[1], "work");
    OfTwo(ts[0], ts[1], "end");
  }

  lemma {:induction false} OfTwo(s: Transition, t: Transition, id: string)
    ensures Outbound([s, t], id) == (if s.from == id then [s] else []) + (if t.from == id then [t] else [])
    ensures Inbound([s, t], id) == (if s.to == id then [s] else []) + (if t.to == id then [t] else [])
  {
    assert [s, t][1..] == [t] && [t][1..] == [];
    assert Outbound([t], id) == (if t.from == id then [t] else []);
    assert Inbound([t], id) == (if t.to == id then [t] else []);
  }

  lemma {:induction false} LoopingIsOk(loops: nat, attempts: nat)
    requires loops >= 1
    ensures GraphOk(Looping(loops, attempts))
  {
    var g := Looping(loops, attempts);
    KnownIds(g);
    assert g.nodes[0].id in NodeIds(g.nodes) && g.nodes[1].id in NodeIds(g.nodes);
    assert g.transitions[1].from == g.nodes[0].id && g.transitions[1].to == g.nodes[1].id && EntersFromEarlier(g, 1);
    assert g.nodes[1].terminal.Some?;
    PlainGraphIsOk(g, map["work" := 0, "end" := 1]);
  }

  lemma {:induction false} OneFires(g: WorkflowGraph, rank: map<string, nat>, t: Transition, id: string)
    requires IsUnboundedRanking(g, rank) && t in g.transitions && t.to == id
    requires t.loopBound.Some? && t.loopBound.value >= 0
    ensures FiringBound(g, rank, [t], id) == t.loopBound.value
  {
    assert [t][1..] == [];
  }

  /** The first node is entered once and once more for each loop, and retried besides; the end is entered once. */
  lemma {:induction false} LoopingBound(loops: nat, attempts: nat)
    requires loops >= 1 && attempts >= 1
    ensures GraphOk(Looping(loops, attempts)) && RunBound(Looping(loops, attempts)) == loops + attempts + 1
  {
    LoopingIsOk(loops, attempts);
    LoopingTransitions(loops, attempts);
    var g := Looping(loops, attempts);
    var ts := g.transitions;
    var rank :| IsUnboundedRanking(g, rank) && RunBound(g) == TotalBound(g, rank, g.nodes);
    OneFires(g, rank, ts[0], "work");
    OneFires(g, rank, ts[1], "end");
    assert NodeBound(g, rank, "work") == loops + 1 && NodeBound(g, rank, "end") == 1;
    assert g.nodes[1..] == [g.nodes[1]] && [g.nodes[1]][1..] == [];
    assert TotalBound(g, rank, []) == 0;
    assert TotalBound(g, rank, g.nodes[1..]) == 1;
    assert RetryLimit(g.nodes[0]) == attempts - 1;
    assert TotalBound(g, rank, g.nodes) ==
      NodeBound(g, rank, "work") + RetryLimit(g.nodes[0]) + TotalBound(g, rank, g.nodes[1..]);
  }

  /** So many loops and retries have been made, and the first node is about to be tried again. */
  predicate Looped(st: State, loops: nat, retries: nat) {
    && st.active == {"work"} && st.waiting == {}
    && Count(st.counters, "again") == loops && Count(st.counters, "done") == 0
    && "work" in st.activations && st.activations["work"] == loops + 1 && Count(st.activations, "end") == 0
    && Count(st.retries, "work") == retries && |st.history| == loops + retries
  }

  const FAILS := Settles("work", true, [Blocks, Blocks])
  const LOOPS := Settles("work", false, [Passes, Blocks])
  const LEAVES := Settles("work", false, [Blocks, Passes])
  const ENDS := Settles("end", false, [])

  lemma {:induction false} RetriedOnce(loops: nat, attempts: nat, st: State, retries: nat)
    requires Looped(st, 0, retries) && retries + 1 < attempts
    ensures var next := Next(Looping(loops, attempts), st, FAILS); next.Some? && Looped(next.value, 0, retries + 1)
  {
    LoopingNodes(loops, attempts);
    LoopingTransitions(loops, attempts);
  }

  lemma {:induction false} OneOfTwoFires(g: WorkflowGraph, st: State, s: Transition, t: Transition)
    ensures !AtBound(st, s) ==> FireAll(g, st, [s, t], [Passes, Blocks], 0) == FiredSome(Fire(g, st, s), 1)
    ensures !AtBound(st, t) ==> FireAll(g, st, [s, t], [Blocks, Passes], 0) == FiredSome(Fire(g, st, t), 1)
  {
    assert [s, t][1..] == [t] && [t][1..] == [];
    assert [Passes, Blocks][1..] == [Blocks] && [Blocks][1..] == [];
    assert [Blocks, Passes][1..] == [Passes] && [Passes][1..] == [];
    var next := Fire(g, st, s);
    assert FireAll(g, next, [t], [Blocks], 1) == FireAll(g, next, [], [], 1);
    if !AtBound(st, t) {
      assert FireAll(g, st, [t], [Passes], 0) == FireAll(g, Fire(g, st, t), [], [], 1);
    }
  }

  lemma {:induction false} LoopedOnce(loops: nat, attempts: nat, st: State, made: nat)
    requires attempts >= 1 && Looped(st, made, attempts - 1) && made < loops
    ensures var next := Next(Looping(loops, attempts), st, LOOPS); next.Some? && Looped(next.value, made + 1, attempts - 1)
  {
    var g := Looping(loops, attempts);
    LoopingNodes(loops, attempts);
    LoopingTransitions(loops, attempts);
    OneOfTwoFires(g, Leave(st, g.nodes[0], false), g.transitions[0], g.transitions[1]);
  }

  lemma {:induction false} LeftOnce(loops: nat, attempts: nat, st: State)
    requires attempts >= 1 && Looped(st, loops, attempts - 1)
    ensures var next := Next(Looping(loops, attempts), st, LEAVES);
      next.Some? && next.value.active == {"end"} && |next.value.history| == loops + attempts
  {
    var g := Looping(loops, attempts);
    LoopingNodes(loops, attempts);
    LoopingTransitions(loops, attempts);
    OneOfTwoFires(g, Leave(st, g.nodes[0], false), g.transitions[0], g.transitions[1]);
  }

  lemma {:induction false} EndsOnce(loops: nat, attempts: nat, st: State)
    requires st.active == {"end"}
    ensures var next := Next(Looping(loops, attempts), st, ENDS);
      next.Some? && |next.value.history| == |st.history| + 1
  {
    LoopingNodes(loops, attempts);
    LoopingTransitions(loops, attempts);
  }

  lemma {:induction false} AllRetried(loops: nat, attempts: nat, retries: nat) returns (steps: seq<Step>)
    requires retries < attempts
    ensures var g := Looping(loops, attempts);
      var last := RunTo(g, Start(g, Empty()), steps); last.Some? && Looped(last.value, 0, retries)
  {
    var g := Looping(loops, attempts);
    if retries == 0 {
      LoopingNodes(loops, attempts);
      steps := [];
    } else {
      var before := AllRetried(loops, attempts, retries - 1);
      RetriedOnce(loops, attempts, RunTo(g, Start(g, Empty()), before).value, retries - 1);
      RunOneMore(g, Start(g, Empty()), before, FAILS);
      steps := before + [FAILS];
    }
  }

  lemma {:induction false} AllLooped(loops: nat, attempts: nat, made: nat) returns (steps: seq<Step>)
    requires attempts >= 1 && made <= loops
    ensures var g := Looping(loops, attempts);
      var last := RunTo(g, Start(g, Empty()), steps); last.Some? && Looped(last.value, made, attempts - 1)
  {
    var g := Looping(loops, attempts);
    if made == 0 {
      steps := AllRetried(loops, attempts, attempts - 1);
    } else {
      var before := AllLooped(loops, attempts, made - 1);
      LoopedOnce(loops, attempts, RunTo(g, Start(g, Empty()), before).value, made - 1);
      RunOneMore(g, Start(g, Empty()), before, LOOPS);
      steps := before + [LOOPS];
    }
  }

  lemma {:induction false} AllSettled(loops: nat, attempts: nat) returns (steps: seq<Step>)
    requires attempts >= 1
    ensures var g := Looping(loops, attempts);
      var last := RunTo(g, Start(g, Empty()), steps); last.Some? && |last.value.history| == loops + attempts + 1
  {
    var g := Looping(loops, attempts);
    var start := Start(g, Empty());
    var looped := AllLooped(loops, attempts, loops);
    LeftOnce(loops, attempts, RunTo(g, start, looped).value);
    RunOneMore(g, start, looped, LEAVES);
    var left := looped + [LEAVES];
    EndsOnce(loops, attempts, RunTo(g, start, left).value);
    RunOneMore(g, start, left, ENDS);
    steps := left + [ENDS];
  }

  /** However many loops and attempts are allowed, some run from the start settles as often as the bound says. */
  lemma {:induction false} BoundIsAttained(loops: nat, attempts: nat) returns (last: State)
    requires loops >= 1 && attempts >= 1
    ensures var g := Looping(loops, attempts);
      GraphOk(g) && Leads(g, Start(g, Empty()), last) && |last.history| == RunBound(g) == loops + attempts + 1
  {
    LoopingBound(loops, attempts);
    var steps := AllSettled(loops, attempts);
    var g := Looping(loops, attempts);
    last := RunTo(g, Start(g, Empty()), steps).value;
  }
}
