/** The coordinator of one run: driving ticks, suspending, resuming, cancelling and recovering. */
module Coordinator {
  import opened Wrappers
  import opened GraphModel
  import opened GraphValidate
  import opened GraphRun
  import opened GraphAccounting
  import opened GraphRounds
  import opened GraphEngine
  import opened RunStates
  import opened RunStore

  function StateOf(s: Store): RunState
    requires s.run.Some?
  {
    s.run.value.state
  }

  /** A tick ended otherwise than waiting, while a node that has begun to wait in it waits without an open row. */
  predicate Strands(outcome: TickOutcome, rows: seq<Row>) {
    && outcome.Ticked? && outcome.status != WaitingStatus
    && exists n :: n in outcome.newWaits && n in outcome.state.waiting && !HasOpenRow(rows, n)
  }

  predicate RowsAddedFor(before: seq<Row>, rows: seq<Row>, nodes: seq<string>) {
    before <= rows && forall i :: |before| <= i < |rows| ==> rows[i].node in nodes
  }

  /** An open row for a node that asks to wait, unless it had one before; perhaps it throws. */
  method PersistWait(p: Persistence, before: seq<Row>, n: string) returns (ok: bool)
    requires p.Valid() && p.store.run.Some? && p.store.graph.Some? && StateOf(p.store) in {Running, Preparing}
    requires HasOpenRow(p.store.rows, n) <==> HasOpenRow(before, n)
    modifies p`store, p`log
    ensures p.Valid() && p.store == old(p.store).(rows := p.store.rows)
    ensures RowsAddedFor(old(p.store.rows), p.store.rows, [n])
    ensures !ok ==> p.store == old(p.store)
    ensures ok ==> HasOpenRow(p.store.rows, n)
    ensures forall m :: m != n ==> (HasOpenRow(p.store.rows, m) <==> HasOpenRow(old(p.store.rows), m))
  {
    var human: bool := *;
    ok := *;
    if ok && !HasOpenRow(before, n) {
      OneMoreRow(p.store.rows, Row(n, human, Open));
      p.SaveRow(Row(n, human, Open));
    }
  }

  /** Of the nodes that ask to wait the first so many have open rows, and the rest as before. */
  predicate Opened(before: seq<Row>, rows: seq<Row>, nodes: seq<string>, i: nat) {
    && RowsAddedFor(before, rows, nodes)
    && (forall k :: 0 <= k < i && k < |nodes| ==> HasOpenRow(rows, nodes[k]))
    && forall k :: i <= k < |nodes| ==> (HasOpenRow(rows, nodes[k]) <==> HasOpenRow(before, nodes[k]))
  }

  lemma {:induction false} OpenedOneMore(before: seq<Row>, rows: seq<Row>, more: seq<Row>, nodes: seq<string>, i: nat)
    requires i < |nodes| && Distinct(nodes) && Opened(before, rows, nodes, i)
    requires RowsAddedFor(rows, more, [nodes[i]]) && HasOpenRow(more, nodes[i])
    requires forall m :: m != nodes[i] ==> (HasOpenRow(more, m) <==> HasOpenRow(rows, m))
    ensures Opened(before, more, nodes, i + 1)
  {
  }

  /** Wait conditions for the tick's new waits; a node with an open one is not given a second. */
  method PersistWaits(p: Persistence, newWaits: seq<string>) returns (ok: bool)
    requires p.Valid() && p.store.run.Some? && p.store.graph.Some? && StateOf(p.store) in {Running, Preparing}
    requires Distinct(newWaits)
    modifies p`store, p`log
    ensures p.Valid() && p.store == old(p.store).(rows := p.store.rows)
    ensures RowsAddedFor(old(p.store.rows), p.store.rows, newWaits)
    ensures ok ==> forall n :: n in newWaits ==> HasOpenRow(p.store.rows, n)
  {
    var before := p.store.rows;
    for i := 0 to |newWaits|
      invariant p.Valid() && p.store == old(p.store).(rows := p.store.rows)
      invariant Opened(before, p.store.rows, newWaits, i)
    {
      ghost var rows := p.store.rows;
      ok := PersistWait(p, before, newWaits[i]);
      if !ok {
        return;
      }
      OpenedOneMore(before, rows, p.store.rows, newWaits, i);
    }
    ok := true;
  }

  predicate HumanOpen(rows: seq<Row>) {
    exists i :: 0 <= i < |rows| && rows[i].status == Open && rows[i].human
  }

  /** The run waits for a human exactly if some row is open that asks one. */
  predicate ParkedForWhom(s: Store) {
    && s.run.Some? && StateOf(s) in {Waiting, WaitingForHuman}
    && (StateOf(s) == WaitingForHuman <==>
          exists i :: 0 <= i < |s.rows| && s.rows[i].human && s.rows[i].status == Open)
  }

  /** Parks the run, waiting for a human if some open condition asks one. */
  method Suspend(p: Persistence) returns (ok: bool)
    requires p.Valid() && p.store.run.Some? && p.store.graph.Some? && StateOf(p.store) in {Running, Preparing}
    modifies p`store, p`log
    ensures p.Valid() && p.store == old(p.store).(run := p.store.run)
    ensures ok ==> p.store.run.Some? && old(StateOf(p.store)) == Running
    ensures ok ==> ParkedForWhom(p.store)
    ensures !ok ==> p.store == old(p.store)
  {
    var noCheckpoint: bool := *;
    if noCheckpoint {
      return false;
    }
    ok := p.ChangeState(if HumanOpen(p.store.rows) then WaitingForHuman else Waiting);
  }

  method Finalize(p: Persistence, target: RunState) returns (ok: bool)
    requires p.Valid() && p.store.run.Some? && StateOf(p.store) in {Running, Preparing}
    requires target in {Completed, Blocked, Cancelled, Failed}
    modifies p`store, p`log
    ensures p.Valid() && p.store.run.Some? && p.store.graph == old(p.store.graph)
    ensures StateOf(p.store) == if CanTransition(old(StateOf(p.store)), target) then target else old(StateOf(p.store))
    ensures ok ==> StateOf(p.store) == target
  {
    p.CancelForRun();
    p.ReleaseClaim();
    ok := p.ChangeState(target);
    var parentThrows: bool := *;
    ok := ok && !parentThrows;
  }

  /** What is caught while driving fails the run, if the table allows it from where it is. */
  method HandleFailure(p: Persistence)
    requires p.Valid() && p.store.run.Some?
    modifies p`store, p`log
    ensures p.Valid() && p.store.run.Some? && p.store.graph == old(p.store.graph)
    ensures StateOf(p.store) == if CanTransition(old(StateOf(p.store)), Failed) then Failed else old(StateOf(p.store))
  {
    p.CancelForRun();
    p.ReleaseClaim();
    if StateOf(p.store) != Failed {
      var _ := p.ChangeState(Failed);
    }
  }

  function TargetOf(status: TickStatus): RunState {
    match status
    case WaitingStatus => Waiting
    case EndedAt(CompletedOutcome) => Completed
    case EndedAt(BlockedOutcome) => Blocked
    case EndedAt(FailedOutcome) => Failed
    case FailedWith(_) => Failed
    case CancelledStatus => Cancelled
  }

  /** Parked or over: where driving leaves a run, by the state it started in. */
  predicate Left(before: RunState, after: RunState) {
    if before == Preparing then after in {Failed, Cancelled}
    else after in {Waiting, WaitingForHuman, Completed, Failed, Blocked, Cancelled}
  }

  /** The nodes whose earlier waits a tick has ended: it answered them, or they have begun to wait anew. */
  function WaitsEnded(outcome: TickOutcome): set<string>
    requires outcome.Ticked?
  {
    outcome.delivered + set n | n in outcome.newWaits
  }

  lemma {:induction false} OpenRowStands(rows: seq<Row>, over: set<nat>, nodes: set<string>, n: string)
    requires OneOpen(rows) && OverAreNotOpen(rows, over) && HasOpenRow(rows, n)
    ensures Stands(rows, over + Ending(rows, nodes), n)
  {
    var i :| 0 <= i < |rows| && rows[i].node == n && rows[i].status == Open;
    assert IsLatest(rows, n, i);
  }

  lemma {:induction false} EndedRowsDoNotStand(rows: seq<Row>, over: set<nat>, nodes: set<string>, n: string)
    requires n in nodes && !HasOpenRow(rows, n)
    ensures !Stands(rows, over + Ending(rows, nodes), n)
  {
  }

  lemma {:induction false} KeptWaitStands(
    before: seq<Row>, rows: seq<Row>, newWaits: seq<string>, over: set<nat>, nodes: set<string>, n: string)
    requires RowsAddedFor(before, rows, newWaits) && n !in newWaits && n !in nodes && Stands(before, over, n)
    ensures Stands(rows, over + Ending(rows, nodes), n)
  {
    var i: nat :| IsLatest(before, n, i) && i !in over;
    assert IsLatest(rows, n, i);
  }

  /**
   * Of the nodes that a tick leaves waiting those that have begun to wait in it have a row for that
   * wait exactly if they have an open one, and the others have kept theirs.
   */
  lemma {:induction false} WaitsStandIff(s: Store, outcome: TickOutcome, rows: seq<Row>, n: string)
    requires Accounted(s) && s.graph.Some? && outcome.Ticked? && WaitsExplained(s.graph.value, outcome)
    requires RowsAddedFor(s.rows, rows, outcome.newWaits) && OneOpen(rows) && OverAreNotOpen(rows, s.over)
    requires n in outcome.state.waiting
    ensures Stands(rows, s.over + Ending(rows, WaitsEnded(outcome)), n) <==>
      n !in outcome.newWaits || HasOpenRow(rows, n)
  {
    var nodes := WaitsEnded(outcome);
    if HasOpenRow(rows, n) {
      OpenRowStands(rows, s.over, nodes, n);
    } else if n in outcome.newWaits {
      EndedRowsDoNotStand(rows, s.over, nodes, n);
    } else {
      assert Stands(s.rows, s.over, n);
      KeptWaitStands(s.rows, rows, outcome.newWaits, s.over, nodes, n);
    }
  }

  /** A tick that ends otherwise than waiting leaves every wait with a row exactly if it strands none. */
  lemma {:induction false} AllStandIffNoneStranded(s: Store, outcome: TickOutcome)
    requires Accounted(s) && s.graph.Some? && outcome.Ticked? && WaitsExplained(s.graph.value, outcome)
    requires outcome.status != WaitingStatus && OneOpen(s.rows) && OverAreNotOpen(s.rows, s.over)
    ensures AllStand(s.rows, OverAfter(s, WaitsEnded(outcome)), outcome.state.waiting) <==> !Strands(outcome, s.rows)
  {
    forall n | n in outcome.state.waiting
      ensures Stands(s.rows, OverAfter(s, WaitsEnded(outcome)), n) <==> n !in outcome.newWaits || HasOpenRow(s.rows, n)
    {
      WaitsStandIff(s, outcome, s.rows, n);
    }
  }

  /** With an open row for every new wait all waits have a row. */
  lemma {:induction false} AllStandWhenOpen(s: Store, outcome: TickOutcome, rows: seq<Row>)
    requires Accounted(s) && s.graph.Some? && outcome.Ticked? && WaitsExplained(s.graph.value, outcome)
    requires RowsAddedFor(s.rows, rows, outcome.newWaits) && OneOpen(rows) && OverAreNotOpen(rows, s.over)
    requires forall n :: n in outcome.newWaits ==> HasOpenRow(rows, n)
    ensures AllStand(rows, s.over + Ending(rows, WaitsEnded(outcome)), outcome.state.waiting)
  {
    forall n | n in outcome.state.waiting
      ensures Stands(rows, s.over + Ending(rows, WaitsEnded(outcome)), n)
    {
      WaitsStandIff(s, outcome, rows, n);
    }
  }

  /** Who waits on, with an answer at hand, asked for it in this very tick: the answer was consumed. */
  predicate Answered(outcome: TickOutcome, answers: set<string>) {
    outcome.Ticked? && outcome.status == WaitingStatus ==>
      forall n :: n in outcome.state.waiting && n in answers ==> n in outcome.newWaits
  }

  /** The run is parked with the waiting state saved and an open condition for every new wait. */
  predicate ParkedBy(s: Store, outcome: TickOutcome) {
    && outcome.Ticked? && outcome.status == WaitingStatus && s.graph == Some(outcome.state)
    && (forall n :: n in outcome.newWaits ==> HasOpenRow(s.rows, n))
    && ParkedForWhom(s)
  }

  /** Where a drive that a tick decided has led: parked by it, or ended as it says. */
  predicate LedTo(before: RunState, s: Store, outcome: TickOutcome)
    requires s.run.Some?
  {
    && (StateOf(s) in {Waiting, WaitingForHuman} ==> ParkedBy(s, outcome))
    && (before == Running && outcome.Ticked? && outcome.status != WaitingStatus ==>
          StateOf(s) == TargetOf(outcome.status) && s.graph == Some(outcome.state))
  }

  /** How far a drive can get before it fails. */
  predicate GotTo(before: RunState, mid: RunState) {
    mid == before || (CanTransition(before, mid) && mid in {Completed, Blocked, Cancelled, Failed})
  }

  lemma {:induction false} OutcomeMeaning(
    g: WorkflowGraph, st: State, satisfactions: set<string>, max: nat, outcome: TickOutcome)
    requires outcome.Ticked? && OutcomeOk(g, st, satisfactions, max, outcome)
    ensures Answered(outcome, satisfactions) && Persisted(g, outcome.state) && WaitsExplained(st, outcome)
  {
  }

  /** How far saving and parking or ending has got. */
  predicate SettledTo(before: RunState, s: Store, outcome: TickOutcome, ok: bool)
    requires s.run.Some? && outcome.Ticked?
  {
    && LedTo(before, s, outcome)
    && (ok ==> Left(before, StateOf(s)))
    && (!ok ==> GotTo(before, StateOf(s)))
    && (outcome.status == WaitingStatus ==> if ok then StateOf(s) in {Waiting, WaitingForHuman} else StateOf(s) == before)
    && (outcome.status != WaitingStatus ==>
          StateOf(s) == if CanTransition(before, TargetOf(outcome.status)) then TargetOf(outcome.status) else before)
    && (outcome.status != WaitingStatus && ok ==> StateOf(s) == TargetOf(outcome.status))
  }

  /** Wait conditions land before the waiting graph state; then the run is parked. */
  method SettleWaiting(p: Persistence, ghost satisfactions: set<string>, ghost max: nat, outcome: TickOutcome)
    returns (ok: bool)
    requires p.Valid() && p.store.run.Some? && p.store.graph.Some? && StateOf(p.store) in {Running, Preparing}
    requires outcome.Ticked? && OutcomeOk(p.g, p.store.graph.value, satisfactions, max, outcome)
    requires outcome.status == WaitingStatus
    modifies p`store, p`log
    ensures p.Valid() && p.store.run.Some? && p.store.graph.Some? && p.stranded == old(p.stranded)
    ensures p.store.claimed == old(p.store.claimed)
    ensures ok ==> old(StateOf(p.store)) == Running && StateOf(p.store) in {Waiting, WaitingForHuman}
    ensures ok ==> ParkedBy(p.store, outcome)
    ensures !ok ==> StateOf(p.store) == old(StateOf(p.store))
    ensures SettledTo(old(StateOf(p.store)), p.store, outcome, ok)
  {
    ghost var before := p.store;
    assert !p.stranded ==> Accounted(p.log[|p.log| - 1]);
    ok := PersistWaits(p, outcome.newWaits);
    if ok {
      if !p.stranded {
        AllStandWhenOpen(before, outcome, p.store.rows);
      }
      p.SaveGraph(outcome.state, WaitsEnded(outcome));
      ok := Suspend(p);
    }
  }

  lemma {:induction false} EndedIsSettled(before: RunState, s: Store, outcome: TickOutcome, ok: bool)
    requires s.run.Some? && outcome.Ticked? && outcome.status != WaitingStatus && before in {Running, Preparing}
    requires s.graph == Some(outcome.state) && (ok ==> StateOf(s) == TargetOf(outcome.status))
    requires StateOf(s) == if CanTransition(before, TargetOf(outcome.status)) then TargetOf(outcome.status) else before
    ensures SettledTo(before, s, outcome, ok)
    ensures ok || before == Running ==> IsEndOf(outcome.status, StateOf(s))
  {
  }

  /** Any other outcome is saved without looking at its waits, and ends the run. */
  method SettleEnded(p: Persistence, outcome: TickOutcome) returns (ok: bool)
    requires p.Valid() && p.store.run.Some? && p.store.graph.Some? && StateOf(p.store) in {Running, Preparing}
    requires outcome.Ticked? && outcome.status != WaitingStatus && Persisted(p.g, outcome.state)
    requires WaitsExplained(p.store.graph.value, outcome)
    modifies p`store, p`log, p`stranded
    ensures p.Valid() && p.store.run.Some? && p.store.graph.Some?
    ensures p.stranded == (old(p.stranded) || Strands(outcome, old(p.store.rows)))
    ensures p.store.graph == Some(outcome.state)
    ensures ok ==> StateOf(p.store) == TargetOf(outcome.status)
    ensures StateOf(p.store) == if CanTransition(old(StateOf(p.store)), TargetOf(outcome.status))
                                then TargetOf(outcome.status) else old(StateOf(p.store))
    ensures ok || old(StateOf(p.store)) == Running ==> IsEndOf(outcome.status, StateOf(p.store))
    ensures SettledTo(old(StateOf(p.store)), p.store, outcome, ok)
  {
    ghost var before := StateOf(p.store);
    assert !p.stranded ==> Accounted(p.log[|p.log| - 1]);
    if !p.stranded {
      AllStandIffNoneStranded(p.store, outcome);
    }
    p.SaveEnded(outcome.state, WaitsEnded(outcome));
    ok := Finalize(p, TargetOf(outcome.status));
    EndedIsSettled(before, p.store, outcome, ok);
  }

  /** Only a run that is over gives its claim up. */
  predicate KeepsClaim(before: Store, s: Store) {
    s.run.Some? && !IsTerminal(StateOf(s)) ==> s.claimed == before.claimed
  }

  method SettleOutcome(p: Persistence, ghost satisfactions: set<string>, ghost max: nat, outcome: TickOutcome)
    returns (ok: bool)
    requires p.Valid() && p.store.run.Some? && p.store.graph.Some? && StateOf(p.store) in {Running, Preparing}
    requires outcome.Ticked? && OutcomeOk(p.g, p.store.graph.value, satisfactions, max, outcome)
    modifies p`store, p`log, p`stranded
    ensures p.Valid() && p.store.run.Some? && p.store.graph.Some?
    ensures p.stranded ==> old(p.stranded) || Strands(outcome, old(p.store.rows))
    ensures StateOf(p.store) in {Waiting, WaitingForHuman} ==> p.store.claimed == old(p.store.claimed)
    ensures SettledTo(old(StateOf(p.store)), p.store, outcome, ok)
  {
    OutcomeMeaning(p.g, p.store.graph.value, satisfactions, max, outcome);
    if outcome.status == WaitingStatus {
      ok := SettleWaiting(p, satisfactions, max, outcome);
    } else {
      ok := SettleEnded(p, outcome);
    }
  }

  method TickAndSettle(p: Persistence, satisfactions: set<string>, max: nat)
    returns (ok: bool, outcome: TickOutcome, threw: bool)
    requires p.Valid() && p.store.run.Some? && p.store.graph.Some? && StateOf(p.store) in {Running, Preparing}
    modifies p`store, p`log, p`stranded
    ensures p.Valid() && p.store.run.Some? && p.store.graph.Some?
    ensures p.stranded ==> old(p.stranded) || Strands(outcome, old(p.store.rows))
    ensures (threw <==> outcome.TickRejected?) && (threw ==> !ok && p.store == old(p.store))
    ensures outcome.Ticked? ==> SettledTo(old(StateOf(p.store)), p.store, outcome, ok)
    ensures StateOf(p.store) in {Waiting, WaitingForHuman} ==> p.store.claimed == old(p.store.claimed)
    ensures TickSays(p.g, old(p.store.graph.value), satisfactions, outcome)
  {
    outcome := Tick(p.g, p.store.graph.value, satisfactions, max);
    if outcome.TickRejected? {
      return false, outcome, true;
    }
    threw := false;
    OutcomeMeaning(p.g, p.store.graph.value, satisfactions, max, outcome);
    ok := SettleOutcome(p, satisfactions, max, outcome);
  }

  /** What a tick from a saved state says of it. */
  ghost predicate TickSays(g: WorkflowGraph, saved: State, satisfactions: set<string>, outcome: TickOutcome) {
    outcome.Ticked? ==>
      && Answered(outcome, satisfactions)
      && Leads(g, Start(g, saved), outcome.state) && WaitsExplained(saved, outcome)
      && (RanOut(saved) ==> Lifeless(outcome.status))
      && (satisfactions == {} && outcome.status == EndedAt(CompletedOutcome) ==> CanComplete(g, saved))
  }

  /** Rounds from the saved state on can reach a terminal node that completes the run. */
  ghost predicate CanComplete(g: WorkflowGraph, saved: State) {
    MayEnd(g, Start(g, saved), CompletedOutcome)
  }

  /** A run is completed or blocked only by a tick that says so. */
  predicate Tells(state: RunState, outcome: TickOutcome) {
    && (state == Completed ==> outcome.Ticked? && outcome.status == EndedAt(CompletedOutcome))
    && (state == Blocked ==> outcome.Ticked? && outcome.status == EndedAt(BlockedOutcome))
    && (state in {Waiting, WaitingForHuman} ==> outcome.Ticked? && outcome.status == WaitingStatus)
  }

  /** What was running ends as its tick has ended; a tick that was rejected fails it. */
  predicate EndsAsTold(before: RunState, state: RunState, outcome: TickOutcome) {
    && (outcome.TickRejected? ==> state == Failed)
    && (before == Running && outcome.Ticked? && outcome.status == WaitingStatus ==>
          state in {Waiting, WaitingForHuman, Failed})
    && (before == Running && outcome.Ticked? && outcome.status != WaitingStatus ==> IsEndOf(outcome.status, state))
    && (before == Preparing && outcome.Ticked? ==> if outcome.status == CancelledStatus then state == Cancelled else state == Failed)
  }

  /** The state that a status other than waiting stands for. */
  predicate IsEndOf(status: TickStatus, state: RunState) {
    && (state == Completed <==> status == EndedAt(CompletedOutcome))
    && (state == Blocked <==> status == EndedAt(BlockedOutcome))
    && (state == Cancelled <==> status == CancelledStatus)
    && (state == Failed <==> status == EndedAt(FailedOutcome) || status.FailedWith?)
  }

  /** Where a drive leaves a run. */
  predicate Drove(before: RunState, s: Store, outcome: TickOutcome)
    requires s.run.Some?
  {
    && Left(before, StateOf(s)) && LedTo(before, s, outcome) && Tells(StateOf(s), outcome)
    && EndsAsTold(before, StateOf(s), outcome)
  }

  lemma {:induction false} SettledDrove(before: RunState, s: Store, outcome: TickOutcome)
    requires s.run.Some? && outcome.Ticked? && before in {Running, Preparing} && SettledTo(before, s, outcome, true)
    ensures Drove(before, s, outcome)
  {
  }

  /** What fails after saving or parking has got so far leaves the run over all the same. */
  lemma {:induction false} FailedDrove(before: RunState, mid: Store, s: Store, outcome: TickOutcome)
    requires mid.run.Some? && s.run.Some? && before in {Running, Preparing}
    requires if outcome.Ticked? then SettledTo(before, mid, outcome, false) else StateOf(mid) == before
    requires s.graph == mid.graph
    requires StateOf(s) == if CanTransition(StateOf(mid), Failed) then Failed else StateOf(mid)
    ensures Drove(before, s, outcome)
  {
  }

  /**
   * One drive. It leaves the run parked or over; a run still preparing, as a crash can leave it, is
   * over, and neither completed nor blocked. Waits are only ever left without a row by a tick that
   * ends otherwise than waiting.
   */
  method Drive(p: Persistence, satisfactions: set<string>, max: nat) returns (outcome: TickOutcome, threw: bool)
    requires p.Valid() && p.store.run.Some? && p.store.graph.Some? && StateOf(p.store) in {Running, Preparing}
    modifies p`store, p`log, p`stranded
    ensures p.Valid() && p.store.run.Some? && p.store.graph.Some?
    ensures p.stranded ==> old(p.stranded) || Strands(outcome, old(p.store.rows))
    ensures Drove(old(StateOf(p.store)), p.store, outcome)
    ensures TickSays(p.g, old(p.store.graph.value), satisfactions, outcome)
    ensures KeepsClaim(old(p.store), p.store) && (threw <==> outcome.TickRejected?)
  {
    outcome := TickRejected;
    ghost var before := StateOf(p.store);
    threw := *;
    var ok := false;
    if !threw {
      ok, outcome, threw := TickAndSettle(p, satisfactions, max);
    }
    if ok {
      SettledDrove(before, p.store, outcome);
    } else {
      ghost var mid := p.store;
      HandleFailure(p);
      FailedDrove(before, mid, p.store, outcome);
    }
  }

  /** A run that waits is running again before it is driven. */
  function DrivenFrom(state: RunState): RunState {
    if state == Waiting || state == WaitingForHuman then Running else state
  }

  /** Resuming throws, and changes nothing, when there is no graph state to resume from. */
  method Resume(p: Persistence, satisfactions: set<string>, max: nat) returns (outcome: TickOutcome, threw: bool)
    requires p.Valid() && p.store.run.Some? && StateOf(p.store) in {Running, Preparing, Waiting, WaitingForHuman}
    modifies p`store, p`log, p`stranded
    ensures p.Valid() && p.store.run.Some?
    ensures p.store == old(p.store) || Left(old(StateOf(p.store)), StateOf(p.store))
    ensures Answered(outcome, satisfactions)
    ensures p.store != old(p.store) && StateOf(p.store) in {Waiting, WaitingForHuman} ==> ParkedBy(p.store, outcome)
    ensures old(p.store.graph.None?) ==> p.store == old(p.store)
    ensures p.stranded ==> old(p.stranded) || Strands(outcome, old(p.store.rows))
    ensures old(p.store.graph.Some?) && RanOut(old(p.store.graph.value)) && p.store != old(p.store) ==>
      StateOf(p.store) in {Failed, Cancelled}
    ensures satisfactions == {} && StateOf(p.store) == Completed ==>
      old(p.store.graph.Some?) && CanComplete(p.g, old(p.store.graph.value))
    ensures KeepsClaim(old(p.store), p.store) && (threw <==> outcome.TickRejected?)
    ensures !threw ==> old(p.store.graph.Some?) && TickSays(p.g, old(p.store.graph.value), satisfactions, outcome)
    ensures !threw ==> EndsAsTold(DrivenFrom(old(StateOf(p.store))), StateOf(p.store), outcome)
  {
    outcome := TickRejected;
    threw := *;
    if p.store.graph.None? || threw {
      threw := true;
      return;
    }
    if StateOf(p.store) == Waiting || StateOf(p.store) == WaitingForHuman {
      var _ := p.ChangeState(Running);
    }
    outcome, threw := Drive(p, satisfactions, max);
  }

  /**
   * A response to a wait. What is no valid input, or a secret that cannot be stored, is refused; of
   * the others the first to an open wait is accepted and resumes the run.
   */
  method Satisfy(p: Persistence, i: nat, valid: bool, max: nat)
    returns (accepted: bool, outcome: TickOutcome, threw: bool)
    requires p.Valid() && i < |p.store.rows|
    modifies p`store, p`log, p`stranded
    ensures p.Valid() && accepted == (valid && old(p.store.rows)[i].status == Open)
    ensures !accepted ==> p.store == old(p.store)
    ensures accepted ==> Answered(outcome, {old(p.store.rows)[i].node})
    ensures accepted ==> p.stranded ==>
      old(p.stranded) || Strands(outcome, Answering(old(p.store), i).rows)
    ensures !accepted ==> p.stranded == old(p.stranded)
    ensures accepted ==> (threw <==> outcome.TickRejected?) && old(p.store.run.Some?) && p.store.run.Some?
    ensures accepted && !threw ==> EndsAsTold(DrivenFrom(old(StateOf(p.store))), StateOf(p.store), outcome)
  {
    accepted, outcome, threw := false, TickRejected, false;
    if !valid {
      return;
    }
    var node := p.store.rows[i].node;
    accepted := p.TrySatisfy(i);
    if accepted {
      outcome, threw := Resume(p, {node}, max);
    }
  }

  predicate Parked(s: Store) {
    s.run.Some? && StateOf(s) in {Waiting, WaitingForHuman}
  }

  /** Cancels a run: what is executing is told to abort, which its tick sees, and a parked one is over. */
  method Cancel(p: Persistence, executing: bool) returns (done: bool)
    requires p.Valid()
    modifies p`store, p`log
    ensures p.Valid() && done == (executing || old(Parked(p.store)))
    ensures !executing && old(Parked(p.store)) ==>
      p.store == old(p.store).(run := p.store.run, rows := Withdraw(old(p.store).rows), claimed := false)
    ensures !executing && old(Parked(p.store)) ==> p.store.run.Some? && StateOf(p.store) == Cancelled
    ensures executing || !old(Parked(p.store)) ==> p.store == old(p.store)
  {
    if executing {
      return true;
    }
    if p.store.run.None? {
      return false;
    }
    done := StateOf(p.store) == Waiting || StateOf(p.store) == WaitingForHuman;
    if done {
      p.CancelForRun();
      p.ReleaseClaim();
      var _ := p.ChangeState(Cancelled);
    }
  }

  /** A new run, for which nothing is stored yet. What throws before the drive is not caught. */
  method StartRun(p: Persistence, max: nat) returns (outcome: TickOutcome, threw: bool)
    requires p.Valid() && p.store.run.None? && p.store.graph.None? && p.store.rows == []
    modifies p`store, p`log, p`stranded
    ensures p.Valid() && p.store.run.Some?
    ensures StateOf(p.store) == Preparing || Left(Running, StateOf(p.store))
    ensures p.stranded ==> old(p.stranded) || Strands(outcome, old(p.store.rows))
    ensures threw <==> outcome.TickRejected?
    ensures !threw ==> EndsAsTold(Running, StateOf(p.store), outcome) && TickSays(p.g, Empty(), {}, outcome)
  {
    outcome := TickRejected;
    p.Write(p.store.(run := Some(Run(Queued, []))));
    var _ := p.ChangeState(Preparing);
    threw := *;
    if threw {
      return;
    }
    p.SaveGraph(Empty(), {});
    var started := p.ChangeState(Running);
    outcome, threw := Drive(p, {}, max);
  }

  // ---------------------------------------------------------------- recovery

  lemma {:induction false} FewerWaitingIsPersisted(g: WorkflowGraph, st: State, gone: set<string>)
    requires Persisted(g, st)
    ensures Persisted(g, st.(waiting := st.waiting - gone))
  {
    if st != Empty() {
      WaitsDoNotCount(g, st, st.waiting - gone);
    } else {
      assert st.(waiting := st.waiting - gone) == st;
    }
  }

  /** What recovery answers a run with. */
  function RecoveryAnswers(s: Store): set<string> {
    if Parked(s) && s.graph.Some? then Replayed(s.graph.value.waiting, s.rows) else {}
  }

  /**
   * Recovery of a waiting run: its nodes get the answers that are found for them, and those without
   * a condition are executed again. As long as no tick has stranded a node there are none of these.
   * With nothing to recover the run stays as it is.
   */
  method Reconcile(p: Persistence, max: nat) returns (missing: set<string>, outcome: TickOutcome, threw: bool)
    requires p.Valid() && p.store.run.Some? && StateOf(p.store) in {Waiting, WaitingForHuman}
    modifies p`store, p`log, p`stranded
    ensures p.Valid() && p.store.run.Some?
    ensures missing == {} <==> AllHaveRows(old(p.store.rows), old(p.store.graph.value.waiting))
    ensures old(!p.stranded) ==> missing == {}
    ensures NothingToRecover(old(p.store.graph.value.waiting), old(p.store.rows)) ==> p.store == old(p.store)
    ensures Left(Running, StateOf(p.store))
    ensures Answered(outcome, Replayed(old(p.store.graph.value.waiting), old(p.store.rows)))
    ensures p.stranded ==> old(p.stranded) || Strands(outcome, old(p.store.rows))
    ensures KeepsClaim(old(p.store), p.store)
    ensures NothingToRecover(old(p.store.graph.value.waiting), old(p.store.rows)) ==> !threw
    ensures !NothingToRecover(old(p.store.graph.value.waiting), old(p.store.rows)) ==> (threw <==> outcome.TickRejected?)
    ensures outcome.Ticked? ==>
      && EndsAsTold(Running, StateOf(p.store), outcome)
      && var st := old(p.store).graph.value;
         TickSays(p.g, st.(waiting := st.waiting - missing), Replayed(st.waiting, old(p.store).rows), outcome)
  {
    outcome, threw := TickRejected, false;
    var st := p.store.graph.value;
    missing := Missing(st.waiting, p.store.rows);
    MissingIffNoRow(st.waiting, p.store.rows);
    assert !p.stranded ==> Accounted(p.log[|p.log| - 1]);
    if !p.stranded {
      StandingHaveRows(p.store.rows, p.store.over, st.waiting);
    }
    var replayed := Replayed(st.waiting, p.store.rows);
    if missing == {} && replayed == {} {
      return;
    }
    assert missing == {} ==> st.(waiting := st.waiting - missing) == st;
    if missing != {} {
      FewerWaitingIsPersisted(p.g, st, missing);
      p.SaveGraph(st.(waiting := st.waiting - missing), {});
    }
    outcome, threw := Resume(p, replayed, max);
  }

  /** A run that was executing, or that waits and has something to recover. */
  predicate Recovers(s: Store) {
    && s.run.Some?
    && (StateOf(s) in {Running, Preparing}
        || (Parked(s) && s.graph.Some? && !NothingToRecover(s.graph.value.waiting, s.rows)))
  }

  /**
   * Recovery of a run after a restart. A run caught preparing or running is driven again. If it has
   * nothing left to execute it fails or is cancelled, and it completes only if rounds from its saved
   * state can reach a terminal node that completes it.
   */
  method Recover(p: Persistence, max: nat) returns (outcome: TickOutcome, threw: bool)
    requires p.Valid()
    modifies p`store, p`log, p`stranded
    ensures p.Valid() && (p.store.run.Some? <==> old(p.store.run.Some?))
    ensures old(p.store.run.Some?) && old(StateOf(p.store)) == Preparing ==>
      StateOf(p.store) in {Preparing, Failed, Cancelled}
    ensures old(p.store.run.Some?) && old(StateOf(p.store)) == Running && RanOut(old(p.store.graph.value)) ==>
      StateOf(p.store) in {Running, Failed, Cancelled}
    ensures old(p.store.run.Some?) && old(StateOf(p.store)) == Running && StateOf(p.store) == Completed ==>
      CanComplete(p.g, old(p.store.graph.value))
    ensures p.store.run.None? || IsTerminal(StateOf(p.store)) ==> !p.store.claimed
    ensures KeepsClaim(old(p.store), p.store)
    ensures p.stranded ==> old(p.stranded) || Strands(outcome, old(p.store.rows))
    ensures Recovers(old(p.store)) ==> (threw <==> outcome.TickRejected?)
    ensures !Recovers(old(p.store)) ==> !threw && p.store == old(p.store).(claimed := p.store.claimed)
    ensures outcome.Ticked? ==> p.store.run.Some? && EndsAsTold(DrivenFrom(old(StateOf(p.store))), StateOf(p.store), outcome)
  {
    outcome, threw := TickRejected, false;
    if p.store.run.Some? {
      if StateOf(p.store) == Running || StateOf(p.store) == Preparing {
        outcome, threw := Resume(p, {}, max);
      } else if StateOf(p.store) == Waiting || StateOf(p.store) == WaitingForHuman {
        var missing;
        missing, outcome, threw := Reconcile(p, max);
      }
    }
    if p.store.claimed && (p.store.run.None? || IsTerminal(StateOf(p.store))) {
      p.ReleaseClaim();
    }
  }
}
