/** The stated grammar of the expression language, and the parser's specification over token kinds. */
module ExpressionGrammar {
  import opened Wrappers
  import opened Expressions

  datatype Kind =
    | StringLit(text: string)
    | NumberLit(text: string)
    | Ident(text: string)
    | Operator(op: BinaryOp)
    | Bang
    | LParen
    | RParen
    | Eof

  // -------------------------------------------------------------- references

  /** Splitting at the dots; there is always one part more than dots. */
  function Split(s: string): (parts: seq<string>)
    ensures |parts| >= 1
  {
    if s == "" then [""]
    else
      var rest := Split(s[1..]);
      if s[0] == '.' then [""] + rest else [[s[0]] + rest[0]] + rest[1..]
  }

  function JoinParts(parts: seq<string>): string
    requires |parts| >= 1
  {
    if |parts| == 1 then parts[0] else parts[0] + "." + JoinParts(parts[1..])
  }

  function FieldNamed(name: string): Option<Field> {
    if name == "succeeded" then Some(SucceededField)
    else if name == "failed" then Some(FailedField)
    else if name == "skipped" then Some(SkippedField)
    else if name == "status" then Some(StatusField)
    else None
  }

  /** A path that is no reference throws, whether or not it starts with `vars` or `steps`. */
  function ParseReference(path: string): Option<Expr> {
    var parts := Split(path);
    if parts[0] == "vars" then
      if |parts| != 2 || parts[1] == "" then None else Some(Var(parts[1]))
    else if parts[0] == "steps" then
      if |parts| == 3 && parts[1] != "" && FieldNamed(parts[2]).Some? then
        Some(StepField(parts[1], FieldNamed(parts[2]).value))
      else if |parts| == 4 && parts[1] != "" && parts[2] == "outputs" && parts[3] != "" then
        Some(StepOutput(parts[1], parts[3]))
      else None
    else None
  }

  function FieldName(f: Field): (name: string)
    ensures FieldNamed(name) == Some(f)
  {
    match f
    case SucceededField => "succeeded"
    case FailedField => "failed"
    case SkippedField => "skipped"
    case StatusField => "status"
  }

  predicate IsName(s: string) {
    s != "" && '.' !in s
  }

  /** The references: a variable, a field of a step, an output of a step, by dot-free names. */
  predicate IsReference(e: Expr) {
    match e
    case Var(name) => IsName(name)
    case StepField(id, _) => IsName(id)
    case StepOutput(id, key) => IsName(id) && IsName(key)
    case _ => false
  }

  function PathParts(e: Expr): seq<string>
    requires IsReference(e)
  {
    match e
    case Var(name) => ["vars", name]
    case StepField(id, f) => ["steps", id, FieldName(f)]
    case StepOutput(id, key) => ["steps", id, "outputs", key]
  }

  predicate DotFree(parts: seq<string>) {
    forall i :: 0 <= i < |parts| ==> '.' !in parts[i]
  }

  lemma {:induction false} SplitIsDotFree(s: string)
    ensures DotFree(Split(s))
  {
    if s != "" {
      SplitIsDotFree(s[1..]);
    }
  }

  lemma {:induction false} SplitThenJoin(s: string)
    ensures JoinParts(Split(s)) == s
  {
    if s != "" {
      SplitThenJoin(s[1..]);
    }
  }

  lemma {:induction false} JoinThenSplit(parts: seq<string>)
    requires |parts| >= 1 && DotFree(parts)
    ensures Split(JoinParts(parts)) == parts
    decreases |parts|, |parts[0]|
  {
    var s := JoinParts(parts);
    if parts[0] != "" {
      var shorter := [parts[0][1..]] + parts[1..];
      assert parts[0][0] != '.';
      JoinThenSplit(shorter);
      assert s == [parts[0][0]] + JoinParts(shorter);
      assert [parts[0][0]] + parts[0][1..] == parts[0];
      assert [parts[0]] + parts[1..] == parts;
    } else if |parts| > 1 {
      JoinThenSplit(parts[1..]);
      assert s[1..] == JoinParts(parts[1..]);
      assert parts == [""] + parts[1..];
    }
  }

  /** The paths that parse are exactly those of references, each as the reference it spells. */
  lemma {:induction false} ReferencesAreTheirPaths(path: string, e: Expr)
    ensures ParseReference(path) == Some(e) <==> IsReference(e) && path == JoinParts(PathParts(e))
  {
    SplitIsDotFree(path);
    SplitThenJoin(path);
    var parts := Split(path);
    if ParseReference(path) == Some(e) {
      assert parts == PathParts(e);
    }
    if IsReference(e) && path == JoinParts(PathParts(e)) {
      JoinThenSplit(PathParts(e));
    }
  }

  // ----------------------------------------------------------------- numbers

  function DigitsValue(s: string): real {
    if s == "" then 0.0
    else DigitsValue(s[..|s| - 1]) * 10.0 + (s[|s| - 1] as int - '0' as int) as real
  }

  function FractionValue(s: string): real {
    if s == "" then 0.0 else ((s[0] as int - '0' as int) as real + FractionValue(s[1..])) / 10.0
  }

  /** The number a token of digits and dots converts to; with two dots or more it is not a number. */
  function ToNumber(text: string): Num {
    var parts := Split(text);
    if |parts| == 1 then Real(DigitsValue(parts[0]))
    else if |parts| == 2 then Real(DigitsValue(parts[0]) + FractionValue(parts[1]))
    else NaN
  }

  // ----------------------------------------------------------------- grammar

  function Level(op: BinaryOp): nat {
    match op
    case Or => 0
    case And => 1
    case Eq => 2
    case Neq => 2
  }

  /** The expression a single token stands for. */
  function LeafExpr(k: Kind): Option<Expr> {
    match k
    case StringLit(text) => Some(Literal(Str(text)))
    case NumberLit(text) => Some(Literal(Number(ToNumber(text))))
    case Ident(text) =>
      if text == "true" then Some(Literal(Bool(true)))
      else if text == "false" then Some(Literal(Bool(false)))
      else ParseReference(text)
    case _ => None
  }

  /** A parse tree: unlike the AST it keeps its parentheses. */
  datatype Tree =
    | Leaf(token: Kind)
    | Paren(inner: Tree)
    | Negated(operand: Tree)
    | Chained(op: BinaryOp, left: Tree, right: Tree)

  /** The grammar rule a tree comes from: 0 or, 1 and, 2 equality, 3 unary, 4 primary. */
  function Rule(t: Tree): nat {
    match t
    case Leaf(_) => 4
    case Paren(_) => 4
    case Negated(_) => 3
    case Chained(op, _, _) => Level(op)
  }

  /** Every node is an instance of its rule; a chain of one level leans left. */
  predicate Grammatical(t: Tree) {
    match t
    case Leaf(token) => LeafExpr(token).Some?
    case Paren(inner) => Grammatical(inner)
    case Negated(operand) => Grammatical(operand) && Rule(operand) >= 3
    case Chained(op, left, right) =>
      Grammatical(left) && Grammatical(right) && Rule(left) >= Level(op) && Rule(right) > Level(op)
  }

  function Yield(t: Tree): (ts: seq<Kind>)
    ensures ts != []
  {
    match t
    case Leaf(token) => [token]
    case Paren(inner) => [LParen] + Yield(inner) + [RParen]
    case Negated(operand) => [Bang] + Yield(operand)
    case Chained(op, left, right) => Yield(left) + [Operator(op)] + Yield(right)
  }

  function Ast(t: Tree): Expr
    requires Grammatical(t)
  {
    match t
    case Leaf(token) => LeafExpr(token).value
    case Paren(inner) => Ast(inner)
    case Negated(operand) => Not(Ast(operand))
    case Chained(op, left, right) => Binary(op, Ast(left), Ast(right))
  }

  /** The tokens are derivable in the grammar with the expression as their tree. */
  ghost predicate Derives(ts: seq<Kind>, e: Expr) {
    exists t :: Grammatical(t) && Yield(t) == ts && Ast(t) == e
  }

  // ------------------------------------------------------ the parser's answers

  datatype Complaint = UnexpectedToken | ExpectedCloseParen | InvalidReference | TrailingInput

  /** Where the parser throws: before the last so many tokens. */
  datatype Failure = Failure(complaint: Complaint, left: nat)

  type Parsed = Result<(Expr, seq<Kind>), Failure>

  function Head(ts: seq<Kind>): Kind {
    if ts == [] then Eof else ts[0]
  }

  predicate Continues(k: Kind, level: nat) {
    k.Operator? && Level(k.op) == level
  }

  function ParseLevel(level: nat, ts: seq<Kind>): (r: Parsed)
    requires level <= 3
    ensures r.Ok? ==> |r.value.1| < |ts|
    decreases |ts|, 5 - level
  {
    if level == 3 then ParseUnary(ts)
    else
      var first :- ParseLevel(level + 1, ts);
      ParseChain(level, first.0, first.1)
  }

  /** The rest of a chain of one level, to the right of what is parsed already. */
  function ParseChain(level: nat, left: Expr, ts: seq<Kind>): (r: Parsed)
    requires level <= 2
    ensures r.Ok? ==> |r.value.1| <= |ts|
    decreases |ts|, 0
  {
    if Continues(Head(ts), level) then
      var right :- ParseLevel(level + 1, ts[1..]);
      ParseChain(level, Binary(ts[0].op, left, right.0), right.1)
    else Ok((left, ts))
  }

  function ParseUnary(ts: seq<Kind>): (r: Parsed)
    ensures r.Ok? ==> |r.value.1| < |ts|
    decreases |ts|, 1
  {
    if Head(ts) == Bang then
      var operand :- ParseUnary(ts[1..]);
      Ok((Not(operand.0), operand.1))
    else ParsePrimary(ts)
  }

  function ParsePrimary(ts: seq<Kind>): (r: Parsed)
    ensures r.Ok? ==> |r.value.1| < |ts|
    decreases |ts|, 0
  {
    match Head(ts)
    case LParen =>
      var inner :- ParseLevel(0, ts[1..]);
      if Head(inner.1) == RParen then Ok((inner.0, inner.1[1..]))
      else Err(Failure(ExpectedCloseParen, |inner.1|))
    case Ident(_) =>
      if LeafExpr(ts[0]).Some? then Ok((LeafExpr(ts[0]).value, ts[1..]))
      else Err(Failure(InvalidReference, |ts|))
    case StringLit(_) => Ok((LeafExpr(ts[0]).value, ts[1..]))
    case NumberLit(_) => Ok((LeafExpr(ts[0]).value, ts[1..]))
    case _ => Err(Failure(UnexpectedToken, |ts|))
  }

  function ParseAll(ts: seq<Kind>): Result<Expr, Failure> {
    var all :- ParseLevel(0, ts);
    if Head(all.1) == Eof then Ok(all.0) else Err(Failure(TrailingInput, |all.1|))
  }

  // --------------------------------------- what is derivable is parsed that way

  /** An operator that a parser of the level, or one it calls, would go on with. */
  predicate Binds(k: Kind, level: nat) {
    k.Operator? && Level(k.op) >= level
  }

  /** Parsing a tree and what follows it is going on with the chain the tree starts. */
  lemma {:induction false} TreeStartsChain(level: nat, t: Tree, rest: seq<Kind>)
    requires level <= 2 && Grammatical(t) && Rule(t) >= level && !Binds(Head(rest), level + 1)
    ensures ParseLevel(level, Yield(t) + rest) == ParseChain(level, Ast(t), rest)
    decreases t, 8 - 2 * level
  {
    if Rule(t) == level {
      var Chained(op, left, right) := t;
      var tail := [Operator(op)] + (Yield(right) + rest);
      assert Yield(t) + rest == Yield(left) + tail;
      TreeStartsChain(level, left, tail);
      TreeIsParsed(level + 1, right, rest);
      assert tail[1..] == Yield(right) + rest;
    } else {
      TreeIsParsed(level + 1, t, rest);
    }
  }

  /** Parsing stops right behind a tree that nothing following it extends. */
  lemma {:induction false} TreeIsParsed(level: nat, t: Tree, rest: seq<Kind>)
    requires level <= 3 && Grammatical(t) && Rule(t) >= level && !Binds(Head(rest), level)
    ensures ParseLevel(level, Yield(t) + rest) == Ok((Ast(t), rest))
    decreases t, 9 - 2 * level
  {
    if level <= 2 {
      TreeStartsChain(level, t, rest);
    } else if t.Negated? {
      assert (Yield(t) + rest)[1..] == Yield(t.operand) + rest;
      TreeIsParsed(3, t.operand, rest);
    } else {
      PrimaryIsParsed(t, rest);
    }
  }

  lemma {:induction false} PrimaryIsParsed(t: Tree, rest: seq<Kind>)
    requires Grammatical(t) && Rule(t) == 4
    ensures ParseUnary(Yield(t) + rest) == Ok((Ast(t), rest))
    decreases t, 0
  {
    var ts := Yield(t) + rest;
    if t.Paren? {
      assert ts[1..] == Yield(t.inner) + ([RParen] + rest);
      TreeIsParsed(0, t.inner, [RParen] + rest);
      assert ([RParen] + rest)[1..] == rest;
    } else {
      assert ts[1..] == rest;
    }
  }

  // ----------------------------------------- what is parsed is derivable that way

  /** What was consumed is the yield of a tree of the level with the parsed expression as its AST. */
  ghost predicate Explains(t: Tree, level: nat, ts: seq<Kind>, e: Expr, rest: seq<Kind>) {
    Grammatical(t) && Rule(t) >= level && Ast(t) == e && Yield(t) + rest == ts
  }

  lemma {:induction false} ParsedIsDerivable(level: nat, ts: seq<Kind>) returns (t: Tree)
    requires level <= 3 && ParseLevel(level, ts).Ok?
    ensures var r := ParseLevel(level, ts).value; Explains(t, level, ts, r.0, r.1)
    decreases |ts|, 5 - level
  {
    if level == 3 {
      t := UnaryIsDerivable(ts);
    } else {
      var first := ParseLevel(level + 1, ts).value;
      var t0 := ParsedIsDerivable(level + 1, ts);
      t := ChainIsDerivable(level, t0, first.1);
      assert Yield(t) + ParseLevel(level, ts).value.1 == ts;
    }
  }

  lemma {:induction false} ChainIsDerivable(level: nat, t0: Tree, ts: seq<Kind>) returns (t: Tree)
    requires level <= 2 && Grammatical(t0) && Rule(t0) >= level && ParseChain(level, Ast(t0), ts).Ok?
    ensures var r := ParseChain(level, Ast(t0), ts).value; Explains(t, level, Yield(t0) + ts, r.0, r.1)
    decreases |ts|, 0
  {
    if Continues(Head(ts), level) {
      var right := ParseLevel(level + 1, ts[1..]).value;
      var t1 := ParsedIsDerivable(level + 1, ts[1..]);
      var longer := Chained(ts[0].op, t0, t1);
      assert Yield(longer) + right.1 == Yield(t0) + ts by {
        assert ts == [ts[0]] + (Yield(t1) + right.1);
      }
      t := ChainIsDerivable(level, longer, right.1);
    } else {
      t := t0;
    }
  }

  lemma {:induction false} UnaryIsDerivable(ts: seq<Kind>) returns (t: Tree)
    requires ParseUnary(ts).Ok?
    ensures var r := ParseUnary(ts).value; Explains(t, 3, ts, r.0, r.1)
    decreases |ts|, 1
  {
    if Head(ts) == Bang {
      var operand := UnaryIsDerivable(ts[1..]);
      t := Negated(operand);
      assert ts == [Bang] + ts[1..];
    } else if Head(ts) == LParen {
      var inner := ParseLevel(0, ts[1..]).value;
      var t0 := ParsedIsDerivable(0, ts[1..]);
      t := Paren(t0);
      assert inner.1 == [RParen] + inner.1[1..];
      assert ts == [LParen] + (Yield(t0) + ([RParen] + inner.1[1..]));
    } else {
      t := Leaf(ts[0]);
    }
  }

  // ----------------------------------------------------------------- theorems

  predicate NoEof(ts: seq<Kind>) {
    forall i :: 0 <= i < |ts| ==> ts[i] != Eof
  }

  lemma {:induction false} YieldHasNoEof(t: Tree)
    requires Grammatical(t)
    ensures NoEof(Yield(t))
  {
    match t
    case Leaf(_) =>
    case Paren(inner) => YieldHasNoEof(inner);
    case Negated(operand) => YieldHasNoEof(operand);
    case Chained(_, left, right) => YieldHasNoEof(left); YieldHasNoEof(right);
  }

  /** The parser accepts exactly the derivable token lists, with the derived tree as its answer. */
  lemma {:induction false} ParsesExactlyTheGrammar(ts: seq<Kind>, e: Expr)
    requires NoEof(ts)
    ensures ParseAll(ts + [Eof]) == Ok(e) <==> Derives(ts, e)
  {
    if Derives(ts, e) {
      var t :| Grammatical(t) && Yield(t) == ts && Ast(t) == e;
      TreeIsParsed(0, t, [Eof]);
    }
    if ParseAll(ts + [Eof]) == Ok(e) {
      var rest := ParseLevel(0, ts + [Eof]).value.1;
      var t := ParsedIsDerivable(0, ts + [Eof]);
      YieldHasNoEof(t);
      EofEndsIt(Yield(t), rest, ts);
      assert Grammatical(t) && Yield(t) == ts && Ast(t) == e;
    }
  }

  lemma {:induction false} EofEndsIt(a: seq<Kind>, rest: seq<Kind>, ts: seq<Kind>)
    requires NoEof(a) && NoEof(ts) && a + rest == ts + [Eof] && Head(rest) == Eof
    ensures a == ts
  {
    var whole := ts + [Eof];
    assert forall i :: 0 <= i < |a| ==> whole[i] == a[i];
    assert forall i :: 0 <= i < |ts| ==> whole[i] == ts[i];
    assert whole[|ts|] == Eof;
    assert |a| < |whole| ==> whole[|a|] == Eof;
    assert |a| == |ts|;
  }

  /** No token list has two meanings. */
  lemma {:induction false} GrammarIsUnambiguous(ts: seq<Kind>, e0: Expr, e1: Expr)
    requires Derives(ts, e0) && Derives(ts, e1)
    ensures e0 == e1
  {
    var t :| Grammatical(t) && Yield(t) == ts && Ast(t) == e0;
    YieldHasNoEof(t);
    ParsesExactlyTheGrammar(ts, e0);
    ParsesExactlyTheGrammar(ts, e1);
  }
}
