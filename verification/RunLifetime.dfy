/** Whole lives of a run: operations one after another, and a crash after any write. */
module RunLifetime {
  import opened Wrappers
  import opened StringOrder
  import opened GraphModel
  import opened GraphValidate
  import opened GraphRun
  import opened GraphAccounting
  import opened GraphBound
  import opened GraphRounds
  import opened GraphEngine
  import opened GraphExamples
  import opened RunStates
  import opened RunStore
  import opened Coordinator

  /** One operation of the coordinator on the run, or none where none is due. */
  method Operate(p: Persistence, max: nat)
    requires p.Valid()
    modifies p`store, p`log, p`stranded
    ensures p.Valid()
  {
    var choice: int, i: nat := *, *;
    if choice == 0 && p.store.run.None? && p.store.graph.None? && p.store.rows == [] {
      var _, _ := StartRun(p, max);
    } else if choice == 1 && i < |p.store.rows| {
      var valid: bool := *;
      var _, _, _ := Satisfy(p, i, valid, max);
    } else if choice == 2 {
      var executing: bool := *;
      var _ := Cancel(p, executing);
    } else if choice == 3 {
      var _, _ := Recover(p, max);
    }
  }

  /**
   * Any number of operations and crashes, each crash after any write that was made. Whatever is
   * persisted in the end, a terminal run is clean, its history is legal, no node has two open
   * waits, and, unless a tick stranded a node, every waiting node has a condition row of its own
   * wait, and an answer to come exactly unless that wait was withdrawn.
   */
  method Lifetime(g: WorkflowGraph, claimed: bool, steps: nat, max: nat) returns (s: Store, ghost stranded: bool)
    requires ReferencesOk(g)
    ensures StoreOk(g, s) && (stranded || (Accounted(s) && AnswersToCome(s)))
  {
    var p := new Persistence(g, Store(None, None, [], claimed, {}), false);
    for _ := 0 to steps
      invariant fresh(p) && p.Valid() && p.g == g
    {
      Operate(p, max);
      var crashes: bool, k: nat := *, *;
      if crashes && k < |p.log| {
        p := new Persistence(g, p.log[k], p.stranded);
      }
    }
    assert !p.stranded ==> Accounted(p.log[|p.log| - 1]);
    if !p.stranded {
      AccountedMeansAnswersToCome(p.store);
    }
    return p.store, p.stranded;
  }

  // ------------------------------------------- recovery of a completed state

  /**
   * Of a run that a terminal node has ended nothing is left to execute exactly if that node was the
   * only active one. Then recovery of the saved state can only fail or be cancelled.
   */
  lemma {:induction false} EndedRunsOutIffAlone(g: WorkflowGraph, st: State, node: Node, failed: bool)
    requires ReferencesOk(g) && Inv(g, st) && Settling(g, st, node) && node.terminal.Some?
    ensures var saved := Leave(st, node, failed);
      && Settle(g, st, node, failed, AllBlock(g, node)) == Terminal(saved, node.terminal.value)
      && Inv(g, saved) && Start(g, saved) == saved
      && (RanOut(saved) <==> st.active == {node.id})
  {
    var saved := Leave(st, node, failed);
    EntryWasActivated(g, st);
    SettleKeepsInv(g, st, node, failed, AllBlock(g, node));
    assert saved.active == st.active - {node.id};
    if saved.active == {} {
      assert st.active == {node.id};
      assert saved.waiting == {};
    }
  }

  function AllBlock(g: WorkflowGraph, node: Node): (decisions: seq<Decision>)
    ensures |decisions| == |Outbound(g.transitions, node.id)|
  {
    seq(|Outbound(g.transitions, node.id)|, i => Blocks)
  }

  /**
   * When recovery of a saved state can complete the run: if rounds from it can reach a completing
   * terminal node, within as many rounds as the graph has settlements left. It cannot with nothing
   * runnable. With runnable terminal nodes none but the first of them, in the order of ids, can end
   * the run; and if that is the first of all that is runnable, as when all paths have arrived, the
   * run can be completed exactly if this node completes it.
   */
  lemma {:induction false} CanCompleteIff(g: WorkflowGraph, saved: State)
    requires GraphOk(g) && Inv(g, saved) && Start(g, saved) == saved
    ensures CanComplete(g, saved) <==>
      exists n: nat :: n + |saved.history| <= RunBound(g) && EndsAfter(g, saved, n, CompletedOutcome)
    ensures Runnable(saved, {}) == {} ==> !CanComplete(g, saved)
    ensures forall first :: IsLeast(Terminals(g, saved), first) && CanComplete(g, saved) ==>
      IsTerminalWith(g, first, CompletedOutcome)
    ensures forall first :: IsLeast(Runnable(saved, {}), first) && IsTerminalNode(g, first) ==>
      (CanComplete(g, saved) <==> IsTerminalWith(g, first, CompletedOutcome))
  {
    EndsWithinBound(g, saved, CompletedOutcome);
    if Runnable(saved, {}) == {} {
      NothingRunnableNoEnd(g, saved, CompletedOutcome);
    }
    forall first | IsLeast(Terminals(g, saved), first) && CanComplete(g, saved)
      ensures IsTerminalWith(g, first, CompletedOutcome)
    {
      FirstTerminalDecides(g, saved, CompletedOutcome, first);
    }
    forall first | IsLeast(Runnable(saved, {}), first) && IsTerminalNode(g, first)
      ensures CanComplete(g, saved) <==> IsTerminalWith(g, first, CompletedOutcome)
    {
      LeastTerminalDecides(g, saved, CompletedOutcome, first);
    }
  }

  /**
   * A completed run whose process dies before it is marked so: what recovery executes is what else
   * was active and did not wait, and if the first of that is a terminal node, this one decides.
   */
  lemma {:induction false} EndedCanCompleteIff(g: WorkflowGraph, st: State, node: Node, failed: bool)
    requires GraphOk(g) && Inv(g, st) && Settling(g, st, node) && node.terminal.Some?
    ensures var saved := Leave(st, node, failed);
      && Runnable(saved, {}) == st.active - st.waiting - {node.id}
      && (st.active <= st.waiting + {node.id} ==> !CanComplete(g, saved))
      && (forall first :: IsLeast(st.active - st.waiting - {node.id}, first) && IsTerminalNode(g, first) ==>
            (CanComplete(g, saved) <==> IsTerminalWith(g, first, CompletedOutcome)))
  {
    var saved := Leave(st, node, failed);
    EndedRunsOutIffAlone(g, st, node, failed);
    assert Runnable(saved, {}) == st.active - st.waiting - {node.id};
    CanCompleteIff(g, saved);
  }

  // ---------------------------------------------------------- runs that show it

  /**
   * In one round a node begins to wait and another completes the run. That outcome is not a waiting
   * one, so the node's wait is not persisted, but the graph state that waits for it is.
   */
  lemma {:induction false} CompletionStrandsAWait() returns (saved: State)
    ensures var g := Fork(None, CompletedOutcome);
      && GraphOk(g) && RoundTo(g, Start(g, Empty()), Forked())
      && LastRound(g, Forked(), [Suspends("first")], Settles("second", false, []), CompletedOutcome)
      && RunTo(g, Forked(), [Suspends("first"), Settles("second", false, [])]) == Some(saved)
    ensures Strands(Ticked(saved, EndedAt(CompletedOutcome), ["first"], {}), [])
  {
    ForkIsOk(None, CompletedOutcome);
    ForkRound(None, CompletedOutcome);
    saved := ForkWaitsAndEnds(CompletedOutcome);
    assert "first" in ["first"] && "first" in saved.waiting && !HasOpenRow([], "first");
  }

  /**
   * Two terminal nodes become active at once, and the first completes the run. If it is not marked
   * so when its process dies, recovery ends it as the second one says: completed again, or failed.
   */
  lemma {:induction false} CompletionIsDecidedAgain(second: TerminalOutcome) returns (saved: State)
    ensures var g := Fork(Some(CompletedOutcome), second);
      && GraphOk(g) && RoundTo(g, Start(g, Empty()), Forked())
      && LastRound(g, Forked(), [], Settles("first", false, []), CompletedOutcome)
      && RunTo(g, Forked(), [Settles("first", false, [])]) == Some(saved)
      && (CanComplete(g, saved) <==> second == CompletedOutcome)
      && MayEnd(g, Start(g, saved), second)
  {
    var g := Fork(Some(CompletedOutcome), second);
    ForkIsOk(Some(CompletedOutcome), second);
    ForkRound(Some(CompletedOutcome), second);
    saved := ForkEnds(CompletedOutcome, second);
    ForkEndsTwice(CompletedOutcome, second, saved, CompletedOutcome);
    ForkEndsTwice(CompletedOutcome, second, saved, second);
    assert Start(g, saved) == saved;
  }

  const LINE := WorkflowGraph("only", [End("only")], [])

  /** A run whose only active node has completed it: its saved state has nothing left to recover. */
  lemma {:induction false} CompletionCanRunOut() returns (saved: State)
    ensures GraphOk(LINE)
    ensures Settle(LINE, Start(LINE, Empty()), LINE.nodes[0], false, []) == Terminal(saved, CompletedOutcome)
    ensures RanOut(saved) && !CanComplete(LINE, saved)
  {
    assert LINE.nodes[0].id in NodeIds(LINE.nodes);
    PlainGraphIsOk(LINE, map[]);
    StartInv(LINE);
    var started := Start(LINE, Empty());
    assert started == State({"only"}, {}, map[], map["only" := 1], map[], []);
    EndedRunsOutIffAlone(LINE, started, LINE.nodes[0], false);
    EndedCanCompleteIff(LINE, started, LINE.nodes[0], false);
    saved := Leave(started, LINE.nodes[0], false);
  }

  // ----------------------------------------------- a cancellation that is cut off

  function FirstTick(): TickOutcome {
    Ticked(Asked(), WaitingStatus, ["ask"], {})
  }

  function SecondTick(): TickOutcome {
    Ticked(Asked(), WaitingStatus, ["ask"], {"ask"})
  }

  /** Both are outcomes of ticks: fresh, and when the node that waits is answered. */
  lemma {:induction false} AskTicks(max: nat)
    ensures GraphOk(ASK)
    ensures OutcomeOk(ASK, Empty(), {}, max, FirstTick()) && OutcomeOk(ASK, Asked(), {"ask"}, max, SecondTick())
  {
    AskIsOk();
    AsksTwice();
    BoundAtTickEnd(ASK, Asked());
  }

  /** The writes by which a run is started. */
  method StartOn(g: WorkflowGraph, claimed: bool) returns (p: Persistence)
    requires ReferencesOk(g)
    ensures fresh(p) && p.Valid() && p.g == g && !p.stranded
    ensures p.store.run.Some? && StateOf(p.store) == Running && p.store.graph == Some(Empty())
    ensures p.store.rows == [] && p.store.over == {}
  {
    p := new Persistence(g, Store(None, None, [], claimed, {}), false);
    p.Write(p.store.(run := Some(Run(Queued, []))));
    var ok := p.ChangeState(Preparing);
    p.SaveGraph(Empty(), {});
    ok := p.ChangeState(Running);
  }

  lemma {:induction false} NewRowStands(rows: seq<Row>, row: Row, over: set<nat>)
    requires OverAreNotOpen(rows, over) && row.status == Open
    ensures Ending(rows + [row], {row.node}) == Ending(rows, {row.node})
    ensures AllStand(rows + [row], over + Ending(rows + [row], {row.node}), {row.node})
  {
    assert IsLatest(rows + [row], row.node, |rows|);
  }

  /** The writes by which a run is parked as a tick says in which its only waiting node has begun to wait. */
  method ParkAs(p: Persistence, human: bool, node: string, outcome: TickOutcome)
    requires p.Valid() && p.store.run.Some? && StateOf(p.store) == Running && p.store.graph.Some?
    requires !HasOpenRow(p.store.rows, node) && outcome.Ticked? && WaitsEnded(outcome) == {node}
    requires Persisted(p.g, outcome.state) && outcome.state.waiting == {node}
    modifies p`store, p`log
    ensures p.Valid() && Parked(p.store) && p.store.graph == Some(outcome.state)
    ensures p.store.rows == old(p.store.rows) + [Row(node, human, Open)]
    ensures p.store.over == OverAfter(old(p.store), {node})
    ensures StateOf(p.store) == if human then WaitingForHuman else Waiting
  {
    NewRowStands(p.store.rows, Row(node, human, Open), p.store.over);
    p.SaveRow(Row(node, human, Open));
    p.SaveGraph(outcome.state, WaitsEnded(outcome));
    var ok := p.ChangeState(if human then WaitingForHuman else Waiting);
  }

  /** The writes by which its wait is answered. */
  method AnswerAsking(p: Persistence)
    requires p.Valid() && Parked(p.store) && p.store.rows != [] && p.store.rows[0].status == Open
    modifies p`store, p`log
    ensures p.Valid() && p.store.run.Some? && StateOf(p.store) == Running
    ensures p.store == Answering(old(p.store), 0).(run := p.store.run)
  {
    var ok := p.TrySatisfy(0);
    ok := p.ChangeState(Running);
  }

  lemma {:induction false} AskOutcomes()
    ensures Persisted(ASK, Asked()) && Asked().waiting == {"ask"}
    ensures WaitsEnded(FirstTick()) == {"ask"} && WaitsEnded(SecondTick()) == {"ask"}
  {
    AsksTwice();
  }

  /** A run that is started, and parked by its first tick. */
  method AskOnce(claimed: bool, human: bool) returns (p: Persistence)
    ensures fresh(p) && p.Valid() && p.g == ASK && !p.stranded && Parked(p.store) && p.store.graph == Some(Asked())
    ensures p.store.rows == [Row("ask", human, Open)] && p.store.over == {}
  {
    AskIsOk();
    AskOutcomes();
    p := StartOn(ASK, claimed);
    ParkAs(p, human, "ask", FirstTick());
  }

  /** It is answered, and parked by its second tick. */
  method AskAgain(p: Persistence, human: bool)
    requires p.Valid() && p.g == ASK && Parked(p.store) && p.store.graph == Some(Asked())
    requires p.store.rows == [Row("ask", human, Open)] && p.store.over == {}
    modifies p`store, p`log
    ensures p.Valid() && Parked(p.store) && p.store.graph == Some(Asked())
    ensures p.store.rows == [Row("ask", human, Satisfied), Row("ask", human, Open)] && p.store.over == {0}
  {
    AskOutcomes();
    AnswerAsking(p);
    assert p.store.rows == [Row("ask", human, Satisfied)];
    ParkAs(p, human, "ask", SecondTick());
  }

  /** What is found after the waits were withdrawn. */
  lemma {:induction false} CutOffAsking(s: Store, human: bool, again: bool)
    requires Accounted(s) && Parked(s) && s.graph == Some(Asked())
    requires if again then s.rows == [Row("ask", human, Satisfied), Row("ask", human, Open)] && s.over == {0}
             else s.rows == [Row("ask", human, Open)]
    ensures var cut := s.(rows := Withdraw(s.rows));
      if again then "ask" in RecoveryAnswers(cut) && IsReplayed(cut.rows, "ask", 0) && 0 in cut.over
      else NothingToRecover(Asked().waiting, cut.rows)
  {
    WithdrawnIsStuckIff(s);
    if again {
      var cut := Withdraw(s.rows);
      assert cut[0] == s.rows[0] && HasStatus(cut, "ask", Satisfied) && !HasOpenRow(cut, "ask");
    }
  }

  /**
   * A parked run is cancelled, and its process dies after the first write, which withdraws the
   * waits. Recovery finds it parked. If its node has only asked once, there is nothing to recover and
   * nobody left to answer. If it was answered and asked again, it is resumed with the answer that it
   * has consumed before.
   */
  method CutOffCancel(claimed: bool, human: bool, again: bool) returns (p: Persistence)
    ensures fresh(p) && p.Valid() && !p.stranded && Parked(p.store) && NoneOpen(p.store.rows)
    ensures p.store.graph == Some(Asked())
    ensures !again ==> NothingToRecover(Asked().waiting, p.store.rows)
    ensures again ==> "ask" in RecoveryAnswers(p.store) && IsReplayed(p.store.rows, "ask", 0) && 0 in p.store.over
  {
    p := AskOnce(claimed, human);
    if again {
      AskAgain(p, human);
    }
    assert Accounted(p.log[|p.log| - 1]);
    CutOffAsking(p.store, human, again);
    p.CancelForRun();
    assert Accounted(p.log[|p.log| - 1]) && StoreOk(ASK, p.log[|p.log| - 1]);
    p := new Persistence(ASK, p.store, false);
  }
}
