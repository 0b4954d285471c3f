/** What expressions mean: equality, truth, short circuits, references, precedence and spelling. */
module ExpressionLaws {
  import opened Wrappers
  import opened Expressions
  import opened ExpressionGrammar
  import opened ExpressionTokens
  import opened ExpressionNumbers

  // ------------------------------------------------------------------ equality

  /** Two values are equal if they are the same, unless that is not a number; `!=` is the contrary. */
  lemma {:induction false} EqualityIsIdentity(e: Expr, f: Expr, ctx: Context, v: Value, w: Value)
    requires Evaluate(e, ctx) == Ok(v) && Evaluate(f, ctx) == Ok(w)
    ensures Evaluate(Binary(Eq, e, f), ctx) == Ok(Bool(v == w && v != Number(NaN)))
    ensures Evaluate(Binary(Neq, e, f), ctx) == Evaluate(Not(Binary(Eq, e, f)), ctx)
    ensures Evaluate(Binary(Eq, e, e), ctx) == Ok(Bool(false)) <==> v == Number(NaN)
    ensures Evaluate(Binary(Eq, e, f), ctx) == Evaluate(Binary(Eq, f, e), ctx)
  {
  }

  /** Both operands of a comparison are evaluated, the left one first. */
  lemma {:induction false} ComparisonThrowsAsOperands(op: BinaryOp, e: Expr, f: Expr, ctx: Context)
    requires op == Eq || op == Neq
    ensures Evaluate(e, ctx).Err? ==> Evaluate(Binary(op, e, f), ctx) == Evaluate(e, ctx)
    ensures Evaluate(e, ctx).Ok? && Evaluate(f, ctx).Err? ==> Evaluate(Binary(op, e, f), ctx) == Evaluate(f, ctx)
  {
  }

  // --------------------------------------------------------------------- truth

  /** The falsy values are these six. */
  lemma {:induction false} FalsyValues(v: Value)
    ensures !Truthy(v) <==>
      v in {Undefined, Null, Bool(false), Number(Real(0.0)), Number(NaN), Str("")}
  {
  }

  /** The expression has a value, which is truthy. */
  predicate Holds(e: Expr, ctx: Context) {
    Evaluate(e, ctx).Ok? && Truthy(Evaluate(e, ctx).value)
  }

  predicate Fails(e: Expr, ctx: Context) {
    Evaluate(e, ctx).Ok? && !Truthy(Evaluate(e, ctx).value)
  }

  /** Negation, conjunction and disjunction are those of truth, with truth values as their results. */
  lemma {:induction false} TruthTables(e: Expr, f: Expr, ctx: Context)
    ensures Holds(Not(e), ctx) <==> Fails(e, ctx)
    ensures Fails(Not(e), ctx) <==> Holds(e, ctx)
    ensures Holds(Binary(And, e, f), ctx) <==> Holds(e, ctx) && Holds(f, ctx)
    ensures Fails(Binary(And, e, f), ctx) <==> Fails(e, ctx) || (Holds(e, ctx) && Fails(f, ctx))
    ensures Holds(Binary(Or, e, f), ctx) <==> Holds(e, ctx) || (Fails(e, ctx) && Holds(f, ctx))
    ensures Fails(Binary(Or, e, f), ctx) <==> Fails(e, ctx) && Fails(f, ctx)
    ensures forall g :: g in {Not(e), Binary(And, e, f), Binary(Or, e, f)} && Evaluate(g, ctx).Ok? ==>
      Evaluate(g, ctx).value in {Bool(true), Bool(false)}
  {
  }

  /** The right operand's error is hidden exactly where the left one decides. */
  lemma {:induction false} ShortCircuits(e: Expr, f: Expr, ctx: Context)
    ensures Evaluate(Binary(And, e, f), ctx).Err? <==> Evaluate(e, ctx).Err? || (Holds(e, ctx) && Evaluate(f, ctx).Err?)
    ensures Evaluate(Binary(Or, e, f), ctx).Err? <==> Evaluate(e, ctx).Err? || (Fails(e, ctx) && Evaluate(f, ctx).Err?)
    ensures Evaluate(Not(e), ctx).Err? <==> Evaluate(e, ctx).Err?
    ensures forall op: BinaryOp :: Evaluate(e, ctx).Err? ==> Evaluate(Binary(op, e, f), ctx) == Evaluate(e, ctx)
  {
  }

  /** The laws of De Morgan hold, errors included. */
  lemma {:induction false} DeMorgan(e: Expr, f: Expr, ctx: Context)
    ensures Evaluate(Not(Binary(And, e, f)), ctx) == Evaluate(Binary(Or, Not(e), Not(f)), ctx)
    ensures Evaluate(Not(Binary(Or, e, f)), ctx) == Evaluate(Binary(And, Not(e), Not(f)), ctx)
  {
  }

  // ---------------------------------------------------------------- references

  /** A variable has its value, a step's output what was recorded, or is undefined if it was not. */
  lemma {:induction false} ReferencesAreLookups(name: string, id: string, key: string, ctx: Context)
    ensures name in ctx.vars ==> Evaluate(Var(name), ctx) == Ok(ctx.vars[name])
    ensures id in ctx.steps && key in ctx.steps[id].outputs ==>
      Evaluate(StepOutput(id, key), ctx) == Ok(ctx.steps[id].outputs[key])
    ensures id in ctx.steps && key !in ctx.steps[id].outputs ==> Evaluate(StepOutput(id, key), ctx) == Ok(Undefined)
    ensures name !in ctx.vars ==> Evaluate(Var(name), ctx) == Err(UnknownVariable(name))
    ensures id !in ctx.steps ==> Evaluate(StepOutput(id, key), ctx) == Err(UnknownStep(id))
    ensures id !in ctx.steps ==> forall f :: Evaluate(StepField(id, f), ctx) == Err(UnknownStep(id))
  {
  }

  /** Of `succeeded`, `failed` and `skipped` the one of the step's status holds, as comparing it would tell. */
  lemma {:induction false} StatusFieldsAgree(id: string, ctx: Context)
    requires id in ctx.steps
    ensures Holds(StepField(id, SucceededField), ctx) <==> ctx.steps[id].status == Succeeded
    ensures Holds(StepField(id, FailedField), ctx) <==> ctx.steps[id].status == Failed
    ensures Holds(StepField(id, SkippedField), ctx) <==> ctx.steps[id].status == Skipped
    ensures Evaluate(StepField(id, SucceededField), ctx) ==
      Evaluate(Binary(Eq, StepField(id, StatusField), Literal(Str("succeeded"))), ctx)
    ensures Evaluate(StepField(id, FailedField), ctx) ==
      Evaluate(Binary(Eq, StepField(id, StatusField), Literal(Str("failed"))), ctx)
    ensures Evaluate(StepField(id, SkippedField), ctx) ==
      Evaluate(Binary(Eq, StepField(id, StatusField), Literal(Str("skipped"))), ctx)
  {
    assert |"succeeded"| == 9 && |"failed"| == 6 && |"skipped"| == 7;
  }

  // ------------------------------------------------------- precedence and grouping

  predicate IsLeaf(k: Kind) {
    LeafExpr(k).Some?
  }

  lemma {:induction false} GroupsAs(t: Tree, ts: seq<Kind>, e: Expr)
    requires Grammatical(t) && Yield(t) == ts && Ast(t) == e && Eof !in ts
    ensures ParseAll(ts + [Eof]) == Ok(e)
  {
    ParsesExactlyTheGrammar(ts, e);
  }

  /** Comparisons bind tighter than `&&`, and that tighter than `||`. */
  lemma {:induction false} Precedence(a: Kind, b: Kind, c: Kind)
    requires IsLeaf(a) && IsLeaf(b) && IsLeaf(c)
    ensures var x, y, z := LeafExpr(a).value, LeafExpr(b).value, LeafExpr(c).value;
      && ParseAll([a, Operator(Or), b, Operator(And), c, Eof]) == Ok(Binary(Or, x, Binary(And, y, z)))
      && ParseAll([a, Operator(And), b, Operator(Or), c, Eof]) == Ok(Binary(Or, Binary(And, x, y), z))
      && ParseAll([a, Operator(And), b, Operator(Eq), c, Eof]) == Ok(Binary(And, x, Binary(Eq, y, z)))
      && ParseAll([a, Operator(Neq), b, Operator(And), c, Eof]) == Ok(Binary(And, Binary(Neq, x, y), z))
  {
    GroupsRight(Or, And, a, b, c);
    GroupsLeft(And, Or, a, b, c);
    GroupsRight(And, Eq, a, b, c);
    GroupsLeft(Neq, And, a, b, c);
  }

  lemma {:induction false} TwoLeaves(op: BinaryOp, a: Kind, b: Kind)
    requires IsLeaf(a) && IsLeaf(b)
    ensures var t := Chained(op, Leaf(a), Leaf(b));
      Grammatical(t) && Yield(t) == [a, Operator(op), b] && Ast(t) == Binary(op, LeafExpr(a).value, LeafExpr(b).value)
  {
    assert Grammatical(Leaf(a)) && Grammatical(Leaf(b)) && Yield(Leaf(a)) == [a] && Yield(Leaf(b)) == [b];
  }

  lemma {:induction false} GroupsRight(outer: BinaryOp, inner: BinaryOp, a: Kind, b: Kind, c: Kind)
    requires IsLeaf(a) && IsLeaf(b) && IsLeaf(c) && Level(inner) > Level(outer)
    ensures ParseAll([a, Operator(outer), b, Operator(inner), c, Eof]) ==
      Ok(Binary(outer, LeafExpr(a).value, Binary(inner, LeafExpr(b).value, LeafExpr(c).value)))
  {
    var right := Chained(inner, Leaf(b), Leaf(c));
    assert Grammatical(Leaf(a)) && Yield(Leaf(a)) == [a];
    TwoLeaves(inner, b, c);
    var t := Chained(outer, Leaf(a), right);
    var ts := [a, Operator(outer), b, Operator(inner), c];
    assert Yield(t) == ts && ts + [Eof] == [a, Operator(outer), b, Operator(inner), c, Eof];
    GroupsAs(t, ts, Ast(t));
  }

  lemma {:induction false} GroupsLeft(inner: BinaryOp, outer: BinaryOp, a: Kind, b: Kind, c: Kind)
    requires IsLeaf(a) && IsLeaf(b) && IsLeaf(c) && Level(inner) >= Level(outer)
    ensures ParseAll([a, Operator(inner), b, Operator(outer), c, Eof]) ==
      Ok(Binary(outer, Binary(inner, LeafExpr(a).value, LeafExpr(b).value), LeafExpr(c).value))
  {
    var left := Chained(inner, Leaf(a), Leaf(b));
    assert Grammatical(Leaf(c)) && Yield(Leaf(c)) == [c];
    TwoLeaves(inner, a, b);
    var t := Chained(outer, left, Leaf(c));
    var ts := [a, Operator(inner), b, Operator(outer), c];
    assert Yield(t) == ts && ts + [Eof] == [a, Operator(inner), b, Operator(outer), c, Eof];
    GroupsAs(t, ts, Ast(t));
  }

  /** Chains of one kind lean left, `==` and `!=` being of one kind, and `!` binds tightest. */
  lemma {:induction false} ChainsLeanLeft(op: BinaryOp, a: Kind, b: Kind, c: Kind)
    requires IsLeaf(a) && IsLeaf(b) && IsLeaf(c)
    ensures var x, y, z := LeafExpr(a).value, LeafExpr(b).value, LeafExpr(c).value;
      && ParseAll([a, Operator(op), b, Operator(op), c, Eof]) == Ok(Binary(op, Binary(op, x, y), z))
      && ParseAll([a, Operator(Neq), b, Operator(Eq), c, Eof]) == Ok(Binary(Eq, Binary(Neq, x, y), z))
      && ParseAll([Bang, a, Operator(op), b, Eof]) == Ok(Binary(op, Not(x), y))
  {
    GroupsLeft(op, op, a, b, c);
    GroupsLeft(Neq, Eq, a, b, c);
    var negated := Negated(Leaf(a));
    assert Grammatical(Leaf(a)) && Grammatical(Leaf(b)) && Yield(Leaf(a)) == [a] && Yield(Leaf(b)) == [b];
    assert Grammatical(negated) && Yield(negated) == [Bang, a] && Ast(negated) == Not(LeafExpr(a).value);
    var t, ts := Chained(op, negated, Leaf(b)), [Bang, a, Operator(op), b];
    assert Yield(t) == ts && ts + [Eof] == [Bang, a, Operator(op), b, Eof];
    GroupsAs(t, ts, Ast(t));
  }

  // ------------------------------------------------------------------- spelling

  /** Words begin with these characters, and go on with these, digits and dots; numbers are digits and dots. */
  lemma {:induction false} WordsAndNumbers(c: char)
    ensures IsLetter(c) <==> c in "abcdefghijklmnopqrstuvwxyz" || c in "ABCDEFGHIJKLMNOPQRSTUVWXYZ" || c == '_'
    ensures IsDigit(c) <==> c in "0123456789"
    ensures InNumber(c) <==> c in "0123456789."
    ensures InIdent(c) <==> IsLetter(c) || InNumber(c)
    ensures IsSpace(c) <==> c in " \t\n\r"
    ensures InString(c) <==> c != '\''
  {
    Alphabet(c);
  }

  lemma {:induction false} Alphabet(c: char)
    ensures 'a' <= c <= 'z' <==> c in "abcdefghijklmnopqrstuvwxyz"
    ensures 'A' <= c <= 'Z' <==> c in "ABCDEFGHIJKLMNOPQRSTUVWXYZ"
  {
  }

  lemma {:induction false} SymbolsAreSpelt()
    ensures Spelling(Operator(Eq)) == "==" && Spelling(Operator(Neq)) == "!="
    ensures Spelling(Operator(And)) == "&&" && Spelling(Operator(Or)) == "||"
    ensures Spelling(Bang) == "!" && Spelling(LParen) == "(" && Spelling(RParen) == ")"
    ensures forall text | All(text, InString) :: Spelling(StringLit(text)) == "'" + text + "'"
  {
  }

  lemma {:induction false} KeywordsAreLiterals()
    ensures LeafExpr(Ident("true")) == Some(Literal(Bool(true)))
    ensures LeafExpr(Ident("false")) == Some(Literal(Bool(false)))
    ensures forall text :: LeafExpr(StringLit(text)) == Some(Literal(Str(text)))
  {
    assert "true"[0] == 't' && "false"[0] == 'f';
  }

  /** How references are written. */
  lemma {:induction false} ReferencesAreWritten(id: string, key: string)
    requires IsName(id) && IsName(key)
    ensures ParseReference("vars." + id) == Some(Var(id))
    ensures ParseReference("steps." + id + ".outputs." + key) == Some(StepOutput(id, key))
    ensures ParseReference("steps." + id + ".status") == Some(StepField(id, StatusField))
    ensures ParseReference("steps." + id + ".succeeded") == Some(StepField(id, SucceededField))
    ensures ParseReference("steps." + id + ".failed") == Some(StepField(id, FailedField))
    ensures ParseReference("steps." + id + ".skipped") == Some(StepField(id, SkippedField))
  {
    WrittenAs(Var(id), "vars." + id, ["vars", id]);
    OutputsAreWritten(id, key);
    assert "." + "status" == ".status" && "." + "succeeded" == ".succeeded";
    assert "." + "failed" == ".failed" && "." + "skipped" == ".skipped";
    FieldsAreWritten(id, StatusField, "status");
    FieldsAreWritten(id, SucceededField, "succeeded");
    FieldsAreWritten(id, FailedField, "failed");
    FieldsAreWritten(id, SkippedField, "skipped");
  }

  lemma {:induction false} WrittenAs(e: Expr, path: string, parts: seq<string>)
    requires IsReference(e) && PathParts(e) == parts && JoinParts(parts) == path
    ensures ParseReference(path) == Some(e)
  {
    ReferencesAreTheirPaths(path, e);
  }

  lemma {:induction false} FieldsAreWritten(id: string, f: Field, name: string)
    requires IsName(id) && FieldName(f) == name
    ensures ParseReference("steps." + id + ("." + name)) == Some(StepField(id, f))
  {
    var parts := ["steps", id, name];
    assert parts[1..] == [id, name] && parts[1..][1..] == [name];
    assert JoinParts([name]) == name && JoinParts([id, name]) == id + "." + name;
    assert JoinParts(parts) == "steps" + "." + (id + "." + name) == "steps." + id + ("." + name);
    WrittenAs(StepField(id, f), "steps." + id + ("." + name), parts);
  }

  lemma {:induction false} OutputsAreWritten(id: string, key: string)
    requires IsName(id) && IsName(key)
    ensures ParseReference("steps." + id + ".outputs." + key) == Some(StepOutput(id, key))
  {
    var parts := ["steps", id, "outputs", key];
    assert parts[1..] == [id, "outputs", key] && parts[1..][1..] == ["outputs", key] && parts[1..][1..][1..] == [key];
    assert JoinParts(["outputs", key]) == "outputs" + "." + key;
    assert JoinParts([id, "outputs", key]) == id + "." + ("outputs" + "." + key);
    assert JoinParts(parts) == "steps" + "." + (id + "." + ("outputs" + "." + key));
    assert JoinParts(parts) == "steps." + id + ".outputs." + key;
    WrittenAs(StepOutput(id, key), "steps." + id + ".outputs." + key, parts);
  }

  // -------------------------------------------------------------------- numbers

  /** Digits count by their place, on either side of the dot. */
  lemma {:induction false} DigitsArePositional(a: string, b: string)
    ensures DigitsValue(a + b) == DigitsValue(a) * Pow10(|b|) as real + DigitsValue(b)
    decreases |b|
  {
    if b == "" {
      assert a + b == a;
    } else {
      var front := b[..|b| - 1];
      DigitsArePositional(a, front);
      assert (a + b)[..|a + b| - 1] == a + front;
      PlaceUp(DigitsValue(a), Pow10(|front|) as real, DigitsValue(front), DigitsValue(b) - DigitsValue(front) * 10.0);
    }
  }

  lemma {:induction false} PlaceUp(a: real, p: real, b: real, d: real)
    ensures (a * p + b) * 10.0 + d == a * (10.0 * p) + (b * 10.0 + d)
  {
  }

  lemma {:induction false} SingleDigits(c: char)
    requires IsDigit(c)
    ensures DigitsValue([c]) == (c as int - '0' as int) as real
    ensures FractionValue([c]) == DigitsValue([c]) / 10.0
  {
    assert [c][..0] == "" && [c][1..] == "";
  }

  /** A literal of two digits on either side of its dot, worked out. */
  lemma {:induction false} NumbersAreDecimal(a: char, b: char, c: char, d: char)
    requires IsDigit(a) && IsDigit(b) && IsDigit(c) && IsDigit(d)
    ensures ToNumber([a, b, '.', c, d]) ==
      Real(DigitsValue([a]) * 10.0 + DigitsValue([b]) + DigitsValue([c]) / 10.0 + DigitsValue([d]) / 100.0)
    ensures ToNumber([a, b]) == Real(DigitsValue([a]) * 10.0 + DigitsValue([b]))
  {
    DigitsArePositional([a], [b]);
    assert [a] + [b] == [a, b] && Pow10(1) == 10;
    SingleDigits(a);
    SingleDigits(b);
    SingleDigits(c);
    SingleDigits(d);
    assert [c, d][1..] == [d];
    JoinThenSplit([[a, b]]);
    JoinThenSplit([[a, b], [c, d]]);
    assert [[a, b], [c, d]][1..] == [[c, d]];
    assert JoinParts([[a, b], [c, d]]) == [a, b] + "." + [c, d] == [a, b, '.', c, d];
  }
}
