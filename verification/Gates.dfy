/** Gates: the real evaluation with bounded remediation, and the dry run that is to agree with it. */
module Gates {
  import opened Wrappers

  datatype GateKind = ExpressionGate | CommandGate | AgentGate | HumanGate

  /** A gate; an expression's check is its text. Remediation is bounded by its own attempts. */
  datatype Gate = Gate(id: string, kind: GateKind, check: string, required: bool, maxAttempts: Option<int>)

  /** What a gate failed for, as the error message of the node tells it. */
  datatype Reason = ExpressionFalse(check: string) | ExpressionError(check: string) | OtherReason

  datatype Evaluation = Evaluation(gateId: string, passed: bool, reason: Reason, attempt: nat)

  datatype GateOutcome =
    | GatesPassed(evaluations: seq<Evaluation>, remediations: nat)
    | GatesFailed(gateId: string, reason: Reason, evaluations: seq<Evaluation>, remediations: nat)
    | ApprovalPending(gateId: string)
    | GateThrew

  /** What a command or an agent makes of a gate. */
  datatype Answer = Answered(passed: bool) | Threw

  /**
   * What expressions come to over the item, the domain data, the variables and the results: a truth
   * value, or nothing where evaluation throws; which results a text refers to; and what commands and
   * agents answer for a gate, attempt by attempt.
   */
  datatype Scope = Scope(
    truth: map<string, bool>, refers: map<string, set<string>>, results: set<string>, answer: (string, nat) -> Answer)

  function Refers(scope: Scope, check: string): set<string> {
    if check in scope.refers then scope.refers[check] else {}
  }

  // ----------------------------------------------------------------- dry run

  datatype Preview = Pass | Fail | Indeterminate

  function PreviewGate(scope: Scope, gate: Gate): Preview {
    if gate.kind != ExpressionGate || !(Refers(scope, gate.check) <= scope.results) || gate.check !in scope.truth then
      Indeterminate
    else if scope.truth[gate.check] then Pass
    else Fail
  }

  datatype Predicted = PredictedPass | PredictedFail(gateId: string, reason: Reason)

  predicate SomeIndeterminate(scope: Scope, gates: seq<Gate>) {
    exists i :: 0 <= i < |gates| && PreviewGate(scope, gates[i]) == Indeterminate
  }

  /** The first required gate that fails. */
  function FirstFailure(scope: Scope, gates: seq<Gate>): Option<Gate> {
    if gates == [] then None
    else if gates[0].required && PreviewGate(scope, gates[0]) == Fail then Some(gates[0])
    else FirstFailure(scope, gates[1..])
  }

  /** The dry run decides only if every gate is an expression that can be decided. */
  function Predict(scope: Scope, gates: seq<Gate>): Option<Predicted> {
    if SomeIndeterminate(scope, gates) then None
    else
      match FirstFailure(scope, gates)
      case None => Some(PredictedPass)
      case Some(gate) => Some(PredictedFail(gate.id, ExpressionFalse(gate.check)))
  }

  /** The dry run fails a node by exactly the first required gate that is decided false. */
  lemma {:induction false} FirstFailureIsFirst(scope: Scope, gates: seq<Gate>)
    ensures match FirstFailure(scope, gates)
      case None => forall i :: 0 <= i < |gates| && gates[i].required ==> PreviewGate(scope, gates[i]) != Fail
      case Some(gate) =>
        exists k :: 0 <= k < |gates| && gates[k] == gate && gate.required && PreviewGate(scope, gate) == Fail
          && forall i :: 0 <= i < k && gates[i].required ==> PreviewGate(scope, gates[i]) != Fail
  {
    if gates != [] && !(gates[0].required && PreviewGate(scope, gates[0]) == Fail) {
      FirstFailureIsFirst(scope, gates[1..]);
      if FirstFailure(scope, gates).Some? {
        var gate := FirstFailure(scope, gates).value;
        var k :| 0 <= k < |gates[1..]| && gates[1..][k] == gate
          && forall i :: 0 <= i < k && gates[1..][i].required ==> PreviewGate(scope, gates[1..][i]) != Fail;
        assert gates[k + 1] == gate;
        assert forall i :: 1 <= i < k + 1 ==> gates[i] == gates[1..][i - 1];
      }
    }
  }

  predicate IsDecidable(scope: Scope, gate: Gate) {
    gate.kind == ExpressionGate && gate.check in scope.truth &&
    (gate.check in scope.refers ==> scope.refers[gate.check] <= scope.results)
  }

  predicate HoldsFor(scope: Scope, gate: Gate) {
    gate.check in scope.truth && scope.truth[gate.check]
  }

  /** The gate that a dry run fails a node by: required, false, and before it no such gate. */
  predicate IsFirstFalse(scope: Scope, gates: seq<Gate>, k: nat) {
    && k < |gates| && gates[k].required && !HoldsFor(scope, gates[k])
    && forall i: nat :: i < k && gates[i].required ==> HoldsFor(scope, gates[i])
  }

  /**
   * The dry run decides exactly where every gate is an expression that refers to known results only
   * and has a value. It passes the node if all required ones are true, and else names the first that
   * is not.
   */
  lemma {:induction false} PredictionMeans(scope: Scope, gates: seq<Gate>)
    ensures Predict(scope, gates).None? <==> exists i :: 0 <= i < |gates| && !IsDecidable(scope, gates[i])
    ensures Predict(scope, gates) == Some(PredictedPass) ==>
      forall i :: 0 <= i < |gates| && gates[i].required ==> HoldsFor(scope, gates[i])
    ensures Predict(scope, gates).Some? && Predict(scope, gates).value.PredictedFail? ==>
      exists k: nat :: IsFirstFalse(scope, gates, k)
        && Predict(scope, gates) == Some(PredictedFail(gates[k].id, ExpressionFalse(gates[k].check)))
  {
    FirstFailureIsFirst(scope, gates);
    forall i | 0 <= i < |gates|
      ensures IsDecidable(scope, gates[i]) <==> PreviewGate(scope, gates[i]) != Indeterminate
      ensures IsDecidable(scope, gates[i]) ==> (HoldsFor(scope, gates[i]) <==> PreviewGate(scope, gates[i]) == Pass)
    {
    }
    if Predict(scope, gates).Some? && FirstFailure(scope, gates).Some? {
      var gate := FirstFailure(scope, gates).value;
      var k: nat :| k < |gates| && gates[k] == gate && gate.required && PreviewGate(scope, gate) == Fail
        && forall i :: 0 <= i < k && gates[i].required ==> PreviewGate(scope, gates[i]) != Fail;
      assert IsFirstFalse(scope, gates, k);
    }
  }

  // ------------------------------------------------------------- composition

  predicate HasGate(gates: seq<Gate>, id: string) {
    exists i :: 0 <= i < |gates| && gates[i].id == id
  }

  /** The gate of an id is the first of the sets in their order, bases first. */
  predicate IsFirst(all: seq<Gate>, gate: Gate) {
    exists k :: 0 <= k < |all| && all[k] == gate && forall i :: 0 <= i < k ==> all[i].id != gate.id
  }

  lemma {:induction false} StillFirst(all: seq<Gate>, n: nat, gate: Gate)
    requires n < |all| && IsFirst(all[..n], gate)
    ensures IsFirst(all[..n + 1], gate)
  {
    var k :| 0 <= k < n && all[..n][k] == gate && forall i :: 0 <= i < k ==> all[..n][i].id != gate.id;
    assert all[..n + 1][k] == gate;
    assert forall i :: 0 <= i < k ==> all[..n + 1][i] == all[..n][i];
  }

  /** Flattening: every id of any set is there once, as its first gate has it. No set overrides its bases. */
  method Compose(all: seq<Gate>) returns (gates: seq<Gate>)
    ensures forall i, j :: 0 <= i < j < |gates| ==> gates[i].id != gates[j].id
    ensures forall k :: 0 <= k < |gates| ==> IsFirst(all, gates[k])
    ensures forall id :: HasGate(gates, id) <==> HasGate(all, id)
  {
    var seen: set<string> := {};
    gates := [];
    for n := 0 to |all|
      invariant forall id :: id in seen <==> HasGate(gates, id)
      invariant forall id :: id in seen <==> HasGate(all[..n], id)
      invariant forall i, j :: 0 <= i < j < |gates| ==> gates[i].id != gates[j].id
      invariant forall k :: 0 <= k < |gates| ==> IsFirst(all[..n], gates[k])
    {
      var gate := all[n];
      forall k | 0 <= k < |gates|
        ensures IsFirst(all[..n + 1], gates[k])
      {
        StillFirst(all, n, gates[k]);
      }
      OneMoreGate(all[..n], gate);
      assert all[..n + 1] == all[..n] + [gate];
      if gate.id !in seen {
        OneMoreGate(gates, gate);
        assert !HasGate(all[..n], gate.id);
        FirstAtLast(all[..n], gate);
        seen := seen + {gate.id};
        gates := gates + [gate];
      }
    }
    assert all[..|all|] == all;
  }

  lemma {:induction false} OneMoreGate(gates: seq<Gate>, gate: Gate)
    ensures forall id :: HasGate(gates + [gate], id) <==> HasGate(gates, id) || id == gate.id
  {
    assert (gates + [gate])[|gates|] == gate;
    forall id | HasGate(gates, id)
      ensures HasGate(gates + [gate], id)
    {
      var i :| 0 <= i < |gates| && gates[i].id == id;
      assert (gates + [gate])[i].id == id;
    }
  }

  lemma {:induction false} FirstAtLast(gates: seq<Gate>, gate: Gate)
    requires !HasGate(gates, gate.id)
    ensures IsFirst(gates + [gate], gate)
  {
    assert (gates + [gate])[|gates|] == gate;
    assert forall i :: 0 <= i < |gates| ==> (gates + [gate])[i].id != gate.id;
  }

  // -------------------------------------------------------------- evaluation

  datatype Approval = NoApproval | Approved(gateId: string) | Rejected(gateId: string)

  datatype Checked = Checked(passed: bool, reason: Reason) | Pending | AgentThrew

  /** What an attempt to evaluate a gate comes to. */
  predicate IsCheck(scope: Scope, approval: Approval, gate: Gate, attempt: nat, c: Checked) {
    match gate.kind
    case ExpressionGate =>
      c == if gate.check !in scope.truth then Checked(false, ExpressionError(gate.check))
           else Checked(scope.truth[gate.check], if scope.truth[gate.check] then OtherReason else ExpressionFalse(gate.check))
    case HumanGate =>
      if approval == Approved(gate.id) then c == Checked(true, OtherReason)
      else if approval == Rejected(gate.id) then c == Checked(false, OtherReason)
      else c == Pending
    case _ =>
      match scope.answer(gate.id, attempt)
      case Threw => c == AgentThrew
      case Answered(passed) => c == Checked(passed, OtherReason)
  }

  /**
   * An expression passes if it is true, a human gate if it was approved, and any other by what is
   * answered; why they fail is told.
   */
  predicate JudgedRightly(scope: Scope, approval: Approval, gate: Gate, e: Evaluation) {
    match gate.kind
    case ExpressionGate =>
      && (e.passed <==> HoldsFor(scope, gate))
      && (!e.passed ==> e.reason == if gate.check in scope.truth then ExpressionFalse(gate.check) else ExpressionError(gate.check))
    case HumanGate =>
      && (e.passed <==> approval == Approved(gate.id))
      && (!e.passed <==> approval == Rejected(gate.id))
    case _ => scope.answer(gate.id, e.attempt) == Answered(e.passed)
  }

  /** An attempt at which the gate fails. */
  predicate FailsAt(scope: Scope, approval: Approval, gate: Gate, attempt: nat) {
    match gate.kind
    case ExpressionGate => !HoldsFor(scope, gate)
    case HumanGate => approval == Rejected(gate.id)
    case _ => scope.answer(gate.id, attempt) == Answered(false)
  }

  method EvaluateOnce(scope: Scope, approval: Approval, gate: Gate, attempt: nat) returns (c: Checked)
    ensures IsCheck(scope, approval, gate, attempt, c)
  {
    match gate.kind
    case ExpressionGate =>
      if gate.check !in scope.truth {
        c := Checked(false, ExpressionError(gate.check));
      } else {
        c := Checked(scope.truth[gate.check], if scope.truth[gate.check] then OtherReason else ExpressionFalse(gate.check));
      }
    case HumanGate =>
      if approval == Approved(gate.id) {
        c := Checked(true, OtherReason);
      } else if approval == Rejected(gate.id) {
        c := Checked(false, OtherReason);
      } else {
        c := Pending;
      }
    case _ =>
      var answer := scope.answer(gate.id, attempt);
      c := if answer.Threw? then AgentThrew else Checked(answer.passed, OtherReason);
  }

  function Positive(n: int): nat {
    if n < 0 then 0 else n
  }

  /** How often a gate's failure may still be remedied. */
  function Remedies(gate: Gate, left: int): nat {
    if !gate.required || gate.maxAttempts.None? then 0
    else if Positive(gate.maxAttempts.value) < Positive(left) then Positive(gate.maxAttempts.value)
    else Positive(left)
  }

  /** What evaluating a gate with its remediation comes to. */
  predicate EvaluatedAs(scope: Scope, approval: Approval, gate: Gate, left: int, c: Checked, attempt: nat) {
    && (c.Checked? ==> IsCheck(scope, approval, gate, attempt, c) && 1 <= attempt <= Remedies(gate, left) + 1)
    && (c.Checked? && !c.passed ==> attempt == Remedies(gate, left) + 1)
    && (c.Checked? ==> JudgedRightly(scope, approval, gate, Evaluation(gate.id, c.passed, c.reason, attempt)))
    && (forall k :: 1 <= k < attempt ==> FailsAt(scope, approval, gate, k))
    && (c.Checked? && (!gate.required || gate.maxAttempts.None? || left <= 0) ==> attempt == 1)
    && (c.Checked? && !c.passed && gate.required && gate.maxAttempts.Some? && left >= 0 && gate.maxAttempts.value >= 0 ==>
          attempt - 1 == if left < gate.maxAttempts.value then left else gate.maxAttempts.value)
    && (c.Checked? && c.passed && gate.kind == ExpressionGate ==> attempt == 1)
    && (c.Pending? ==> gate.kind == HumanGate && approval !in {Approved(gate.id), Rejected(gate.id)})
    && (gate.kind == ExpressionGate && c.AgentThrew? ==>
          Remedies(gate, left) > 0 && !(gate.check in scope.truth && scope.truth[gate.check]))
  }

  /**
   * One gate, with remediation and re-evaluation while it fails. It passes only by an evaluation, and
   * an expression, which no remediation changes, uses up all its remedies before it fails.
   */
  method EvaluateGate(scope: Scope, approval: Approval, gate: Gate, left: int) returns (c: Checked, attempt: nat)
    ensures EvaluatedAs(scope, approval, gate, left, c, attempt)
  {
    attempt := 1;
    c := EvaluateOnce(scope, approval, gate, attempt);
    if !c.Checked? {
      return;
    }
    while !c.passed && gate.required && gate.maxAttempts.Some? && attempt - 1 < left && attempt <= gate.maxAttempts.value
      invariant c.Checked? && IsCheck(scope, approval, gate, attempt, c) && 1 <= attempt <= Remedies(gate, left) + 1
      invariant forall k :: 1 <= k < attempt ==> FailsAt(scope, approval, gate, k)
      invariant gate.kind == ExpressionGate && c.passed ==> attempt == 1
      decreases Remedies(gate, left) + 1 - attempt
    {
      var throws: bool := *;
      if throws {
        return AgentThrew, attempt;
      }
      attempt := attempt + 1;
      c := EvaluateOnce(scope, approval, gate, attempt);
      if !c.Checked? {
        return;
      }
    }
  }

  /** How often the gates evaluated so far were remedied. */
  function Remedied(evaluations: seq<Evaluation>): int {
    if evaluations == [] then 0
    else Remedied(evaluations[..|evaluations| - 1]) + evaluations[|evaluations| - 1].attempt - 1
  }

  /** The gates were evaluated in order, and each required one but the last passed. */
  predicate InTurn(gates: seq<Gate>, evaluations: seq<Evaluation>) {
    && |evaluations| <= |gates|
    && (forall i :: 0 <= i < |evaluations| ==> evaluations[i].gateId == gates[i].id && evaluations[i].attempt >= 1)
    && (forall i :: 0 <= i < |evaluations| - 1 && gates[i].required ==> evaluations[i].passed)
  }

  /** What the gates come to says how each was evaluated, and remediation kept to its bound. */
  predicate OutcomeOk(gates: seq<Gate>, maxRemediation: int, outcome: GateOutcome) {
    match outcome
    case GatesPassed(evaluations, n) =>
      && |evaluations| == |gates| && InTurn(gates, evaluations) && n == Remedied(evaluations) <= Positive(maxRemediation)
      && forall i :: 0 <= i < |gates| && gates[i].required ==> evaluations[i].passed
    case GatesFailed(id, reason, evaluations, n) =>
      && evaluations != [] && InTurn(gates, evaluations) && n == Remedied(evaluations) <= Positive(maxRemediation)
      && (var k := |evaluations| - 1;
          gates[k].required && gates[k].id == id && !evaluations[k].passed && evaluations[k].reason == reason)
    case _ => true
  }

  /** Evaluation without a failure so far is where the dry run has found none either. */
  predicate Follows(scope: Scope, gates: seq<Gate>, i: nat)
    requires i <= |gates|
  {
    FirstFailure(scope, gates) == FirstFailure(scope, gates[i..])
  }

  /** What the dry run has decided, the evaluation does, remedying in vain what it says will fail. */
  predicate AsPredicted(scope: Scope, gates: seq<Gate>, maxRemediation: int, outcome: GateOutcome) {
    match Predict(scope, gates)
    case None => true
    case Some(PredictedPass) => outcome.GatesPassed? && outcome.remediations == 0
    case Some(PredictedFail(id, reason)) =>
      && (outcome.GateThrew? || (outcome.GatesFailed? && outcome.gateId == id && outcome.reason == reason))
      && (outcome.GatesFailed? ==>
            FirstFailure(scope, gates).Some? && outcome.remediations == Remedies(FirstFailure(scope, gates).value, maxRemediation))
      && (outcome.GateThrew? ==>
            FirstFailure(scope, gates).Some? && Remedies(FirstFailure(scope, gates).value, maxRemediation) > 0)
  }

  lemma {:induction false} EvaluatedOneMore(gates: seq<Gate>, evaluations: seq<Evaluation>, e: Evaluation)
    requires InTurn(gates, evaluations) && |evaluations| < |gates|
    requires forall i :: 0 <= i < |evaluations| && gates[i].required ==> evaluations[i].passed
    requires e.gateId == gates[|evaluations|].id && e.attempt >= 1
    ensures InTurn(gates, evaluations + [e])
    ensures Remedied(evaluations + [e]) == Remedied(evaluations) + e.attempt - 1
  {
    assert (evaluations + [e])[..|evaluations|] == evaluations;
  }

  lemma {:induction false} FollowsOn(scope: Scope, gates: seq<Gate>, i: nat)
    requires i < |gates| && Follows(scope, gates, i)
    requires !(gates[i].required && PreviewGate(scope, gates[i]) == Fail)
    ensures Follows(scope, gates, i + 1)
  {
    assert gates[i..][1..] == gates[i + 1..];
  }

  predicate RightlySoFar(scope: Scope, approval: Approval, gates: seq<Gate>, evaluations: seq<Evaluation>) {
    && |evaluations| <= |gates|
    && forall i :: 0 <= i < |evaluations| ==>
         JudgedRightly(scope, approval, gates[i], evaluations[i])
  }

  /** Every evaluation is as its gate has it, and only an undecided human gate is left pending. */
  predicate AllJudgedRightly(scope: Scope, approval: Approval, gates: seq<Gate>, outcome: GateOutcome) {
    match outcome
    case GatesPassed(evaluations, _) => RightlySoFar(scope, approval, gates, evaluations)
    case GatesFailed(_, _, evaluations, _) => RightlySoFar(scope, approval, gates, evaluations)
    case ApprovalPending(id) =>
      approval !in {Approved(id), Rejected(id)} && exists gate :: gate in gates && gate.id == id && gate.kind == HumanGate
    case GateThrew => true
  }

  /** No required gate has failed so far. */
  predicate GoingOn(scope: Scope, approval: Approval, gates: seq<Gate>, max: int, evaluations: seq<Evaluation>, n: nat) {
    && InTurn(gates, evaluations) && RightlySoFar(scope, approval, gates, evaluations)
    && n == Remedied(evaluations) <= Positive(max)
    && forall k :: 0 <= k < |evaluations| && gates[k].required ==> evaluations[k].passed
  }

  lemma {:induction false} GoneOn(
    scope: Scope, approval: Approval, gates: seq<Gate>, max: int, evaluations: seq<Evaluation>, n: nat, e: Evaluation)
    requires GoingOn(scope, approval, gates, max, evaluations, n) && |evaluations| < |gates|
    requires var gate := gates[|evaluations|];
      && e.gateId == gate.id && JudgedRightly(scope, approval, gate, e)
      && 1 <= e.attempt && e.attempt - 1 <= Positive(max - n)
    ensures var more := evaluations + [e];
      if e.passed || !gates[|evaluations|].required then GoingOn(scope, approval, gates, max, more, n + e.attempt - 1)
      else
        && OutcomeOk(gates, max, GatesFailed(e.gateId, e.reason, more, n + e.attempt - 1))
        && RightlySoFar(scope, approval, gates, more)
  {
    EvaluatedOneMore(gates, evaluations, e);
  }

  predicate OutcomeRight(scope: Scope, approval: Approval, gates: seq<Gate>, max: int, outcome: GateOutcome) {
    && OutcomeOk(gates, max, outcome) && AsPredicted(scope, gates, max, outcome)
    && AllJudgedRightly(scope, approval, gates, outcome)
  }

  /** As long as the dry run is followed nothing was remedied. */
  predicate Following(scope: Scope, gates: seq<Gate>, i: nat, n: nat)
    requires i <= |gates|
  {
    Predict(scope, gates).Some? ==> Follows(scope, gates, i) && n == 0
  }

  lemma {:induction false} StopsAsPredicted(
    scope: Scope, approval: Approval, gates: seq<Gate>, max: int, i: nat, n: nat, c: Checked, attempt: nat,
    more: seq<Evaluation>)
    requires i < |gates| && Following(scope, gates, i, n) && EvaluatedAs(scope, approval, gates[i], max - n, c, attempt)
    ensures c.Pending? ==> AsPredicted(scope, gates, max, ApprovalPending(gates[i].id))
    ensures c.AgentThrew? ==> AsPredicted(scope, gates, max, GateThrew)
    ensures c.Checked? && !c.passed && gates[i].required ==>
      AsPredicted(scope, gates, max, GatesFailed(gates[i].id, c.reason, more, n + attempt - 1))
  {
    if Predict(scope, gates).Some? {
      assert PreviewGate(scope, gates[i]) != Indeterminate;
      assert gates[i..][0] == gates[i];
    }
  }

  lemma {:induction false} PassesAsPredicted(
    scope: Scope, approval: Approval, gates: seq<Gate>, max: int, i: nat, n: nat, c: Checked, attempt: nat)
    requires i < |gates| && Following(scope, gates, i, n) && EvaluatedAs(scope, approval, gates[i], max - n, c, attempt)
    requires c.Checked? && (c.passed || !gates[i].required)
    ensures Following(scope, gates, i + 1, n + attempt - 1)
  {
    if Predict(scope, gates).Some? {
      assert PreviewGate(scope, gates[i]) != Indeterminate;
      FollowsOn(scope, gates, i);
    }
  }

  /** The next gate: the node goes on, or has its outcome. */
  method EvaluateNext(
    scope: Scope, approval: Approval, gates: seq<Gate>, max: int, evaluations: seq<Evaluation>, n: nat)
    returns (outcome: Option<GateOutcome>, more: seq<Evaluation>, m: nat)
    requires |evaluations| < |gates| && GoingOn(scope, approval, gates, max, evaluations, n)
    requires Following(scope, gates, |evaluations|, n)
    ensures outcome.None? ==> |more| == |evaluations| + 1 && GoingOn(scope, approval, gates, max, more, m)
    ensures outcome.None? ==> |more| <= |gates| && Following(scope, gates, |more|, m)
    ensures outcome.Some? ==> OutcomeRight(scope, approval, gates, max, outcome.value)
  {
    var gate := gates[|evaluations|];
    var c, attempt := EvaluateGate(scope, approval, gate, max - n);
    outcome, more, m := None, evaluations, n;
    StopsAsPredicted(scope, approval, gates, max, |evaluations|, n, c, attempt, []);
    if c.Pending? {
      return Some(ApprovalPending(gate.id)), more, m;
    }
    if c.AgentThrew? {
      return Some(GateThrew), more, m;
    }
    var evaluation := Evaluation(gate.id, c.passed, c.reason, attempt);
    GoneOn(scope, approval, gates, max, evaluations, n, evaluation);
    more, m := evaluations + [evaluation], n + attempt - 1;
    if !c.passed && gate.required {
      StopsAsPredicted(scope, approval, gates, max, |evaluations|, n, c, attempt, more);
      return Some(GatesFailed(gate.id, c.reason, more, m)), more, m;
    }
    PassesAsPredicted(scope, approval, gates, max, |evaluations|, n, c, attempt);
  }

  /** The gates of a node, in order, up to the first required one that fails for good. */
  method EvaluateGates(scope: Scope, approval: Approval, gates: seq<Gate>, maxRemediation: int) returns (outcome: GateOutcome)
    ensures OutcomeOk(gates, maxRemediation, outcome)
    ensures AsPredicted(scope, gates, maxRemediation, outcome)
    ensures AllJudgedRightly(scope, approval, gates, outcome)
  {
    var evaluations: seq<Evaluation>, remediations: nat := [], 0;
    assert gates[0..] == gates;
    for i := 0 to |gates|
      invariant |evaluations| == i && GoingOn(scope, approval, gates, maxRemediation, evaluations, remediations)
      invariant Following(scope, gates, i, remediations)
    {
      var done;
      done, evaluations, remediations := EvaluateNext(scope, approval, gates, maxRemediation, evaluations, remediations);
      if done.Some? {
        return done.value;
      }
    }
    assert gates[|gates|..] == [];
    outcome := GatesPassed(evaluations, remediations);
  }
}
