/** What is persisted of one run, write by write: its row, its graph state, its waits and its claim. */
module RunStore {
  import opened Wrappers
  import opened GraphModel
  import opened GraphValidate
  import opened GraphRun
  import opened GraphEngine
  import opened RunStates

  datatype RowStatus = Open | Satisfied | Withdrawn

  /** A wait condition of a node; some ask a human. */
  datatype Row = Row(node: string, human: bool, status: RowStatus)

  /**
   * The repositories' content for one run. Which rows belong to waits that are over, because their
   * answer was consumed or the node has begun to wait anew, is recorded by none of them; it is kept
   * here to say what recovery replays.
   */
  datatype Store = Store(run: Option<Run>, graph: Option<State>, rows: seq<Row>, claimed: bool, over: set<nat>)

  // --------------------------------------------------------------- invariants

  predicate HasRow(rows: seq<Row>, node: string) {
    exists i :: 0 <= i < |rows| && rows[i].node == node
  }

  predicate HasOpenRow(rows: seq<Row>, node: string) {
    exists i :: 0 <= i < |rows| && rows[i].node == node && rows[i].status == Open
  }

  /** The latest row of a node. */
  predicate IsLatest(rows: seq<Row>, node: string, i: int) {
    0 <= i < |rows| && rows[i].node == node && forall j :: i < j < |rows| ==> rows[j].node != node
  }

  /** The node's latest row is that of a wait which is not over. */
  ghost predicate Stands(rows: seq<Row>, over: set<nat>, node: string) {
    exists i: nat :: IsLatest(rows, node, i) && i !in over
  }

  ghost predicate AllStand(rows: seq<Row>, over: set<nat>, waiting: set<string>) {
    forall n :: n in waiting ==> Stands(rows, over, n)
  }

  predicate OverAreNotOpen(rows: seq<Row>, over: set<nat>) {
    forall i: nat :: i in over ==> i < |rows| && rows[i].status != Open
  }

  /** The rows that are over once some nodes have got their answers or begun to wait anew. */
  function Ending(rows: seq<Row>, nodes: set<string>): (r: set<nat>)
    ensures forall i: nat :: i in r <==> i < |rows| && rows[i].status != Open && rows[i].node in nodes
  {
    set i: nat | i < |rows| && rows[i].status != Open && rows[i].node in nodes
  }

  predicate NoneOpen(rows: seq<Row>) {
    forall i :: 0 <= i < |rows| ==> rows[i].status != Open
  }

  /** Only the latest row of a node can be open, so no node has two. */
  predicate OneOpen(rows: seq<Row>) {
    forall i, j :: 0 <= i < j < |rows| && rows[i].node == rows[j].node ==> rows[i].status != Open
  }

  /** The states a coordinator leaves a run in. */
  predicate Coordinated(s: RunState) {
    s !in {WaitingForTool, WaitingForSubagent, Verifying}
  }

  /** A terminal run has no open wait and holds no claim. */
  predicate CleanIfTerminal(s: Store) {
    s.run.Some? && IsTerminal(s.run.value.state) ==> NoneOpen(s.rows) && !s.claimed
  }

  predicate RunOk(s: Store) {
    && (s.run.Some? ==> IsLegal(s.run.value) && Coordinated(s.run.value.state))
    && (s.rows != [] ==> s.run.Some? && s.run.value.state != Queued && s.graph.Some?)
    && (s.run.Some? && s.run.value.state in {Waiting, WaitingForHuman, Running} ==> s.graph.Some?)
  }

  /** What holds of the store after every single write. */
  ghost predicate StoreOk(g: WorkflowGraph, s: Store) {
    && RunOk(s) && CleanIfTerminal(s) && OneOpen(s.rows) && OverAreNotOpen(s.rows, s.over)
    && (s.graph.Some? ==> Persisted(g, s.graph.value))
  }

  predicate AllHaveRows(rows: seq<Row>, waiting: set<string>) {
    forall n :: n in waiting ==> HasRow(rows, n)
  }

  /** Every waiting node has a condition row for the wait it is in. */
  ghost predicate Accounted(s: Store) {
    s.graph.Some? ==> AllStand(s.rows, s.over, s.graph.value.waiting)
  }

  /** The node's wait is open, or has an answer that is still to be consumed. */
  ghost predicate HasAnswerToCome(s: Store, node: string) {
    exists i: nat :: IsLatest(s.rows, node, i) && i !in s.over && s.rows[i].status in {Open, Satisfied}
  }

  ghost predicate IsWithdrawn(s: Store, node: string) {
    exists i: nat :: IsLatest(s.rows, node, i) && s.rows[i].status == Withdrawn
  }

  /** A waiting node has an answer to come exactly unless its wait was withdrawn. */
  lemma {:induction false} AnswerToComeIffNotWithdrawn(s: Store, node: string)
    requires s.graph.Some? && Accounted(s) && node in s.graph.value.waiting
    ensures HasAnswerToCome(s, node) <==> !IsWithdrawn(s, node)
  {
    assert Stands(s.rows, s.over, node);
    var i: nat :| IsLatest(s.rows, node, i) && i !in s.over;
  }

  /** The same of all waiting nodes. */
  ghost predicate AnswersToCome(s: Store) {
    s.graph.Some? ==> forall n :: n in s.graph.value.waiting ==> (HasAnswerToCome(s, n) <==> !IsWithdrawn(s, n))
  }

  lemma {:induction false} AccountedMeansAnswersToCome(s: Store)
    requires Accounted(s)
    ensures AnswersToCome(s)
  {
    if s.graph.Some? {
      forall n | n in s.graph.value.waiting
        ensures HasAnswerToCome(s, n) <==> !IsWithdrawn(s, n)
      {
        AnswerToComeIffNotWithdrawn(s, n);
      }
    }
  }

  lemma {:induction false} StandingHaveRows(rows: seq<Row>, over: set<nat>, waiting: set<string>)
    requires AllStand(rows, over, waiting)
    ensures AllHaveRows(rows, waiting)
  {
    forall n | n in waiting
      ensures HasRow(rows, n)
    {
      var i: nat :| IsLatest(rows, n, i) && i !in over;
      assert rows[i].node == n;
    }
  }

  // ---------------------------------------------------------------- recovery

  /** The nodes for which recovery finds neither an open, nor a satisfied, nor a withdrawn row. */
  function Missing(waiting: set<string>, rows: seq<Row>): set<string> {
    set n | n in waiting && !HasOpenRow(rows, n) && !HasStatus(rows, n, Satisfied) && !HasStatus(rows, n, Withdrawn)
  }

  predicate HasStatus(rows: seq<Row>, node: string, status: RowStatus) {
    exists i :: 0 <= i < |rows| && rows[i].node == node && rows[i].status == status
  }

  /** The waiting nodes to which recovery hands an answer: that of their last satisfied row. */
  function Replayed(waiting: set<string>, rows: seq<Row>): set<string> {
    set n | n in waiting && !HasOpenRow(rows, n) && HasStatus(rows, n, Satisfied)
  }

  /** The branch of recovery for a missing condition is taken exactly if a waiting node has no row. */
  lemma {:induction false} MissingIffNoRow(waiting: set<string>, rows: seq<Row>)
    ensures Missing(waiting, rows) == {} <==> AllHaveRows(rows, waiting)
  {
    forall n | n in waiting
      ensures n in Missing(waiting, rows) <==> !HasRow(rows, n)
    {
      if i :| 0 <= i < |rows| && rows[i].node == n {
        assert rows[i].status.Open? || rows[i].status.Satisfied? || rows[i].status.Withdrawn?;
      }
    }
    if Missing(waiting, rows) == {} {
      assert forall n :: n in waiting ==> n !in Missing(waiting, rows);
    }
  }

  /** The last satisfied row of a node is the one whose answer recovery takes. */
  predicate IsReplayed(rows: seq<Row>, node: string, i: int) {
    && 0 <= i < |rows| && rows[i].node == node && rows[i].status == Satisfied
    && forall j :: i < j < |rows| && rows[j].node == node ==> rows[j].status != Satisfied
  }

  /**
   * An answer that recovery replays is that of the node's latest wait, and has not been consumed,
   * unless that wait was withdrawn: then it is the answer to an earlier one.
   */
  lemma {:induction false} ReplaysLatestIffNotWithdrawn(s: Store, node: string, i: nat)
    requires s.graph.Some? && Accounted(s) && node in Replayed(s.graph.value.waiting, s.rows)
    requires IsReplayed(s.rows, node, i)
    ensures IsLatest(s.rows, node, i) ==> i !in s.over
    ensures exists k: nat :: IsLatest(s.rows, node, k) && (k == i <==> s.rows[k].status != Withdrawn)
  {
    assert Stands(s.rows, s.over, node);
    var k: nat :| IsLatest(s.rows, node, k) && k !in s.over;
    assert s.rows[k].status != Open;
  }

  /** Recovery finds nothing to do for the waiting nodes. */
  predicate NothingToRecover(waiting: set<string>, rows: seq<Row>) {
    Missing(waiting, rows) == {} && Replayed(waiting, rows) == {}
  }

  /**
   * A parked run whose waits have been withdrawn is left as it is by recovery, with nobody left to
   * answer it, exactly if no waiting node has ever been answered; else it goes on with old answers.
   */
  lemma {:induction false} WithdrawnIsStuckIff(s: Store)
    requires s.graph.Some? && Accounted(s)
    ensures NothingToRecover(s.graph.value.waiting, Withdraw(s.rows)) <==>
      forall n :: n in s.graph.value.waiting ==> !HasStatus(s.rows, n, Satisfied)
  {
    var waiting, rows, cut := s.graph.value.waiting, s.rows, Withdraw(s.rows);
    StandingHaveRows(rows, s.over, waiting);
    SameNodesStand(rows, cut, s.over, waiting);
    StandingHaveRows(cut, s.over, waiting);
    MissingIffNoRow(waiting, cut);
    forall n | n in waiting
      ensures n in Replayed(waiting, cut) <==> HasStatus(rows, n, Satisfied)
    {
      assert !HasOpenRow(cut, n);
      if HasStatus(rows, n, Satisfied) {
        var i :| 0 <= i < |rows| && rows[i].node == n && rows[i].status == Satisfied;
        assert cut[i].status == Satisfied;
      }
    }
  }

  // -------------------------------------------------------------------- rows

  function Withdraw(rows: seq<Row>): (r: seq<Row>)
    ensures |r| == |rows|
    ensures forall i :: 0 <= i < |rows| ==>
      r[i] == if rows[i].status == Open then rows[i].(status := Withdrawn) else rows[i]
  {
    seq(|rows|, i requires 0 <= i < |rows| =>
      if rows[i].status == Open then rows[i].(status := Withdrawn) else rows[i])
  }

  predicate SameNodes(rows: seq<Row>, other: seq<Row>) {
    |rows| == |other| && forall i :: 0 <= i < |rows| ==> other[i].node == rows[i].node
  }

  lemma {:induction false} SameNodesStand(rows: seq<Row>, other: seq<Row>, over: set<nat>, waiting: set<string>)
    requires SameNodes(rows, other)
    ensures AllStand(rows, over, waiting) <==> AllStand(other, over, waiting)
  {
    forall n, i: nat
      ensures IsLatest(rows, n, i) <==> IsLatest(other, n, i)
    {
    }
  }

  lemma {:induction false} OneMoreStands(rows: seq<Row>, row: Row, over: set<nat>, waiting: set<string>)
    requires AllStand(rows, over, waiting) && OverAreNotOpen(rows, over)
    ensures AllStand(rows + [row], over, waiting)
  {
    var next := rows + [row];
    forall n | n in waiting
      ensures Stands(next, over, n)
    {
      if n == row.node {
        assert IsLatest(next, n, |rows|);
      } else {
        var i: nat :| IsLatest(rows, n, i) && i !in over;
        assert IsLatest(next, n, i);
      }
    }
  }

  lemma {:induction false} OneMoreRow(rows: seq<Row>, row: Row)
    requires OneOpen(rows) && !HasOpenRow(rows, row.node)
    ensures OneOpen(rows + [row]) && HasRow(rows + [row], row.node)
    ensures row.status == Open ==> HasOpenRow(rows + [row], row.node)
    ensures forall n :: n != row.node ==> (HasOpenRow(rows + [row], n) <==> HasOpenRow(rows, n))
  {
    var next := rows + [row];
    assert next[|rows|] == row;
    assert forall i :: 0 <= i < |rows| ==> next[i] == rows[i];
  }

  function Answering(s: Store, i: nat): Store
    requires i < |s.rows|
  {
    s.(rows := s.rows[i := s.rows[i].(status := Satisfied)])
  }

  /** The rows that are over once a state is saved in which some nodes were answered or wait anew. */
  function OverAfter(s: Store, nodes: set<string>): set<nat> {
    s.over + Ending(s.rows, nodes)
  }

  // -------------------------------------------------------------- the repositories

  /** The persisted store, every content it ever had, and whether a wait was ever left without a row. */
  class Persistence {
    const g: WorkflowGraph
    var store: Store
    var log: seq<Store>
    ghost var stranded: bool

    /** A crash at any moment leaves the last store written. */
    ghost predicate Valid()
      reads this
    {
      && ReferencesOk(g)
      && log != [] && log[|log| - 1] == store
      && (forall k :: 0 <= k < |log| ==> StoreOk(g, log[k]))
      && (!stranded ==> forall k :: 0 <= k < |log| ==> Accounted(log[k]))
    }

    constructor (g: WorkflowGraph, store: Store, ghost stranded: bool)
      requires ReferencesOk(g) && StoreOk(g, store) && (stranded || Accounted(store))
      ensures Valid() && this.g == g && this.store == store && log == [store] && this.stranded == stranded
    {
      this.g, this.store, this.log, this.stranded := g, store, [store], stranded;
    }

    method Write(next: Store)
      requires Valid() && StoreOk(g, next) && (stranded || Accounted(next))
      modifies this`store, this`log
      ensures Valid() && store == next && log == old(log) + [next]
    {
      store, log := next, log + [next];
    }

    /** Changes the run's state, if the table allows it; otherwise it throws. */
    method ChangeState(to: RunState) returns (ok: bool)
      requires Valid() && store.run.Some? && Coordinated(to)
      requires IsTerminal(to) ==> NoneOpen(store.rows) && !store.claimed
      requires to in {Waiting, WaitingForHuman, Running} ==> store.graph.Some?
      requires to == Queued ==> store.rows == []
      modifies this`store, this`log
      ensures Valid() && ok == CanTransition(old(store).run.value.state, to)
      ensures store == if ok then old(store).(run := Some(Moved(old(store).run.value, to))) else old(store)
    {
      ok := CanTransition(store.run.value.state, to);
      if ok {
        MovedIsLegal(store.run.value, to);
        Write(store.(run := Some(Moved(store.run.value, to))));
      }
    }

    /** Saves a graph state that ends the earlier waits of some nodes. */
    method SaveGraph(st: State, nodes: set<string>)
      requires Valid() && store.run.Some? && Persisted(g, st)
      requires stranded || AllStand(store.rows, OverAfter(store, nodes), st.waiting)
      modifies this`store, this`log
      ensures Valid() && store == old(store).(graph := Some(st), over := OverAfter(old(store), nodes))
    {
      Write(store.(graph := Some(st), over := OverAfter(store, nodes)));
    }

    /** Saves a graph state whatever it waits for, noting when that leaves a wait without a row. */
    method SaveEnded(st: State, nodes: set<string>)
      requires Valid() && store.run.Some? && Persisted(g, st)
      modifies this`store, this`log, this`stranded
      ensures Valid() && store == old(store).(graph := Some(st), over := OverAfter(old(store), nodes))
      ensures stranded == (old(stranded) || !AllStand(old(store).rows, OverAfter(old(store), nodes), st.waiting))
    {
      stranded := stranded || !AllStand(store.rows, OverAfter(store, nodes), st.waiting);
      assert Valid();
      SaveGraph(st, nodes);
    }

    method SaveRow(row: Row)
      requires Valid() && store.run.Some? && store.graph.Some? && row.status == Open
      requires store.run.value.state != Queued && !IsTerminal(store.run.value.state)
      requires !HasOpenRow(store.rows, row.node)
      modifies this`store, this`log
      ensures Valid() && store == old(store).(rows := old(store).rows + [row])
    {
      OneMoreRow(store.rows, row);
      if !stranded {
        OneMoreStands(store.rows, row, store.over, store.graph.value.waiting);
      }
      Write(store.(rows := store.rows + [row]));
    }

    /** The first response wins: only an open row can be satisfied. */
    method TrySatisfy(i: nat) returns (won: bool)
      requires Valid() && i < |store.rows|
      modifies this`store, this`log
      ensures Valid() && won == (old(store).rows[i].status == Open)
      ensures store == if won then Answering(old(store), i) else old(store)
      ensures won ==> store.rows == old(store).rows[i := old(store).rows[i].(status := Satisfied)]
    {
      won := store.rows[i].status == Open;
      if won {
        SameNodesStand(store.rows, Answering(store, i).rows, store.over, store.graph.value.waiting);
        Write(Answering(store, i));
      }
    }

    method CancelForRun()
      requires Valid()
      modifies this`store, this`log
      ensures Valid() && store == old(store).(rows := Withdraw(old(store).rows)) && NoneOpen(store.rows)
    {
      SameNodesStand(store.rows, Withdraw(store.rows), store.over,
                     if store.graph.Some? then store.graph.value.waiting else {});
      Write(store.(rows := Withdraw(store.rows)));
    }

    method ReleaseClaim()
      requires Valid()
      modifies this`store, this`log
      ensures Valid() && store == old(store).(claimed := false)
    {
      Write(store.(claimed := false));
    }
  }
}
