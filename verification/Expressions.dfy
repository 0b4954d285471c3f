/** The AST and evaluator of the `when` expression language, and the results it reads. */
module Expressions {
  import opened Wrappers

  /** A JavaScript number: exact, or not a number at all. */
  datatype Num = Real(value: real) | NaN

  /** A run-time value; objects are compared by identity, so only that is kept of them. */
  datatype Value =
    | Undefined
    | Null
    | Bool(b: bool)
    | Number(n: Num)
    | Str(s: string)
    | Object(identity: int)

  /** The `===` operator. */
  predicate StrictEquals(a: Value, b: Value) {
    a == b && a != Number(NaN)
  }

  /** The `Boolean` conversion. */
  predicate Truthy(a: Value) {
    match a
    case Undefined => false
    case Null => false
    case Bool(b) => b
    case Number(n) => n.Real? && n.value != 0.0
    case Str(s) => s != ""
    case Object(_) => true
  }

  datatype StepStatus = Succeeded | Failed | Skipped

  /** Why a step was skipped or failed. */
  datatype Reason =
    | NoReason
    | Thrown(message: string)
    | WhenFalse
    | DependencyNotSucceeded(dep: string, status: StepStatus)
    | UnresolvedGraph
    | WorkflowCancelled

  datatype StepResult = StepResult(status: StepStatus, outputs: map<string, Value>, error: Reason)

  datatype Field = SucceededField | FailedField | SkippedField | StatusField

  datatype BinaryOp = Eq | Neq | And | Or

  datatype Expr =
    | Literal(value: Value)
    | Var(name: string)
    | StepField(stepId: string, field: Field)
    | StepOutput(stepId: string, key: string)
    | Not(operand: Expr)
    | Binary(op: BinaryOp, left: Expr, right: Expr)

  datatype Context = Context(steps: map<string, StepResult>, vars: map<string, Value>)

  datatype EvaluationError = UnknownStep(stepId: string) | UnknownVariable(name: string)

  function StatusName(s: StepStatus): string {
    match s
    case Succeeded => "succeeded"
    case Failed => "failed"
    case Skipped => "skipped"
  }

  function FieldValue(s: StepStatus, f: Field): Value {
    match f
    case StatusField => Str(StatusName(s))
    case SucceededField => Bool(s.Succeeded?)
    case FailedField => Bool(s.Failed?)
    case SkippedField => Bool(s.Skipped?)
  }

  /** Direct interpretation; the right operand of `&&` and `||` is evaluated only when it decides. */
  function Evaluate(e: Expr, ctx: Context): Result<Value, EvaluationError> {
    match e
    case Literal(v) => Ok(v)
    case Var(name) =>
      if name in ctx.vars then Ok(ctx.vars[name]) else Err(UnknownVariable(name))
    case StepField(id, f) =>
      if id in ctx.steps then Ok(FieldValue(ctx.steps[id].status, f)) else Err(UnknownStep(id))
    case StepOutput(id, key) =>
      if id !in ctx.steps then Err(UnknownStep(id))
      else if key in ctx.steps[id].outputs then Ok(ctx.steps[id].outputs[key])
      else Ok(Undefined)
    case Not(operand) =>
      var v :- Evaluate(operand, ctx);
      Ok(Bool(!Truthy(v)))
    case Binary(op, left, right) =>
      var l :- Evaluate(left, ctx);
      if op == And && !Truthy(l) then Ok(Bool(false))
      else if op == Or && Truthy(l) then Ok(Bool(true))
      else
        var r :- Evaluate(right, ctx);
        match op
        case Eq => Ok(Bool(StrictEquals(l, r)))
        case Neq => Ok(Bool(!StrictEquals(l, r)))
        case _ => Ok(Bool(Truthy(r)))
  }

  /** The steps an expression names. */
  function Mentions(e: Expr): set<string> {
    match e
    case StepField(id, _) => {id}
    case StepOutput(id, _) => {id}
    case Not(operand) => Mentions(operand)
    case Binary(_, left, right) => Mentions(left) + Mentions(right)
    case _ => {}
  }

  function Variables(e: Expr): set<string> {
    match e
    case Var(name) => {name}
    case Not(operand) => Variables(operand)
    case Binary(_, left, right) => Variables(left) + Variables(right)
    case _ => {}
  }

  /** Two contexts that agree on what an expression names. */
  predicate AgreeOn(ids: set<string>, a: Context, b: Context) {
    && a.vars == b.vars
    && forall id :: id in ids ==> (id in a.steps <==> id in b.steps) && (id in a.steps ==> a.steps[id] == b.steps[id])
  }

  /** Evaluation reads nothing but the steps an expression names. */
  lemma {:induction false} EvaluateReadsMentioned(e: Expr, a: Context, b: Context)
    requires AgreeOn(Mentions(e), a, b)
    ensures Evaluate(e, a) == Evaluate(e, b)
  {
    match e
    case Not(operand) => EvaluateReadsMentioned(operand, a, b);
    case Binary(_, left, right) =>
      EvaluateReadsMentioned(left, a, b);
      EvaluateReadsMentioned(right, a, b);
    case StepField(id, _) => assert id in Mentions(e);
    case StepOutput(id, _) => assert id in Mentions(e);
    case _ =>
  }

  /** Evaluation throws only over a step or a variable that is not there. */
  lemma {:induction false} EvaluateThrowsOnlyOnAbsent(e: Expr, ctx: Context)
    ensures Mentions(e) <= ctx.steps.Keys && Variables(e) <= ctx.vars.Keys ==> Evaluate(e, ctx).Ok?
    ensures Evaluate(e, ctx).Err? ==>
      match Evaluate(e, ctx).error
      case UnknownStep(id) => id in Mentions(e) && id !in ctx.steps
      case UnknownVariable(name) => name in Variables(e) && name !in ctx.vars
  {
    match e
    case Not(operand) => EvaluateThrowsOnlyOnAbsent(operand, ctx);
    case Binary(_, left, right) =>
      EvaluateThrowsOnlyOnAbsent(left, ctx);
      EvaluateThrowsOnlyOnAbsent(right, ctx);
    case _ =>
  }
}
