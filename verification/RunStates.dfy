/** The states of a run and the changes between them that are legal. */
module RunStates {
  import opened Wrappers

  datatype RunState =
    | Queued
    | Preparing
    | Running
    | Waiting
    | WaitingForTool
    | WaitingForSubagent
    | WaitingForHuman
    | Verifying
    | Completed
    | Failed
    | Blocked
    | Cancelled

  predicate IsTerminal(s: RunState) {
    s == Completed || s == Failed || s == Blocked || s == Cancelled
  }

  /** The transition table. */
  function Transitions(from: RunState): set<RunState> {
    match from
    case Queued => {Preparing, Cancelled, Failed}
    case Preparing => {Running, Failed, Cancelled}
    case Running =>
      {Waiting, WaitingForTool, WaitingForSubagent, WaitingForHuman, Verifying, Completed, Failed, Blocked, Cancelled}
    case Waiting => {Running, WaitingForHuman, Blocked, Failed, Cancelled}
    case WaitingForTool => {Running, Failed, Cancelled}
    case WaitingForSubagent => {Running, Failed, Cancelled}
    case WaitingForHuman => {Running, Waiting, Blocked, Cancelled}
    case Verifying => {Running, Completed, Failed, Cancelled}
    case Completed => {}
    case Failed => {Queued}
    case Blocked => {Queued, Cancelled}
    case Cancelled => {Queued}
  }

  predicate CanTransition(from: RunState, to: RunState) {
    to in Transitions(from)
  }

  datatype StateChange = StateChange(from: RunState, to: RunState)

  datatype Run = Run(state: RunState, history: seq<StateChange>)

  /** The history is a path of the table from `Queued` to the state. */
  predicate IsLegal(run: Run) {
    var h := run.history;
    && (h == [] ==> run.state == Queued)
    && (h != [] ==> h[0].from == Queued && h[|h| - 1].to == run.state)
    && (forall i :: 0 <= i < |h| ==> CanTransition(h[i].from, h[i].to))
    && (forall i :: 0 < i < |h| ==> h[i - 1].to == h[i].from)
  }

  function Moved(run: Run, to: RunState): Run {
    Run(to, run.history + [StateChange(run.state, to)])
  }

  lemma {:induction false} MovedIsLegal(run: Run, to: RunState)
    requires IsLegal(run) && CanTransition(run.state, to)
    ensures IsLegal(Moved(run, to))
  {
    var h := Moved(run, to).history;
    assert forall i :: 0 <= i < |run.history| ==> h[i] == run.history[i];
  }

  /** No run completes, blocks or waits without having run. */
  lemma {:induction false} OnlyWhatRanCompletes(run: Run)
    requires IsLegal(run) && run.state !in {Queued, Preparing, Running, Failed, Cancelled}
    ensures exists i :: 0 <= i < |run.history| && run.history[i].to == Running
    decreases |run.history|
  {
    var h := run.history;
    var n := |h| - 1;
    assert CanTransition(h[n].from, run.state);
    if h[n].from == Running {
      assert n > 0 && h[n - 1].to == Running;
    } else {
      var before := Run(h[n].from, h[..n]);
      assert IsLegal(before);
      OnlyWhatRanCompletes(before);
      var i :| 0 <= i < |before.history| && before.history[i].to == Running;
      assert h[i].to == Running;
    }
  }

  /** The table read backwards: where a run can come from into each state. */
  lemma {:induction false} WhereRunsComeFrom(from: RunState)
    ensures CanTransition(from, Queued) <==> from in {Failed, Blocked, Cancelled}
    ensures CanTransition(from, Preparing) <==> from == Queued
    ensures CanTransition(from, Running) <==>
      from in {Preparing, Waiting, WaitingForTool, WaitingForSubagent, WaitingForHuman, Verifying}
    ensures CanTransition(from, Waiting) <==> from in {Running, WaitingForHuman}
    ensures CanTransition(from, WaitingForHuman) <==> from in {Running, Waiting}
    ensures forall to :: to in {WaitingForTool, WaitingForSubagent, Verifying} ==>
      (CanTransition(from, to) <==> from == Running)
    ensures CanTransition(from, Completed) <==> from in {Running, Verifying}
    ensures CanTransition(from, Blocked) <==> from in {Running, Waiting, WaitingForHuman}
    ensures CanTransition(from, Failed) <==> !IsTerminal(from) && from != WaitingForHuman
    ensures CanTransition(from, Cancelled) <==> !IsTerminal(from) || from == Blocked
  {
  }
}
