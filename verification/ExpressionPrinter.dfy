/** Printing expressions with the fewest parentheses, and why parsing undoes it. */
module ExpressionPrinter {
  import opened Wrappers
  import opened Expressions
  import opened ExpressionGrammar
  import opened ExpressionTokens
  import opened ExpressionNumbers

  function ParseTokens(ts: seq<Token>): Result<Expr, SyntaxError> {
    match ParseAll(Kinds(ts))
    case Ok(e) => Ok(e)
    case Err(f) => Err(SyntaxError(Misparsed(f.complaint), PositionOf(ts, f.left)))
  }

  /** The position of the first of the last so many tokens. */
  function PositionOf(ts: seq<Token>, left: nat): nat {
    if 1 <= left <= |ts| then ts[|ts| - left].pos else 0
  }

  function ParseExpression(source: string): Result<Expr, SyntaxError> {
    var tokens :- Lex(source, 0);
    ParseTokens(tokens)
  }

  // ------------------------------------------------- which expressions have sources

  predicate WritableName(name: string) {
    IsName(name) && All(name, InIdent)
  }

  /** The expressions that the language can express. */
  ghost predicate Representable(e: Expr) {
    match e
    case Literal(Bool(_)) => true
    case Literal(Str(s)) => All(s, InString)
    case Literal(Number(n)) => IsDecimal(n)
    case Literal(_) => false
    case Var(name) => WritableName(name)
    case StepField(id, _) => WritableName(id)
    case StepOutput(id, key) => WritableName(id) && WritableName(key)
    case Not(operand) => Representable(operand)
    case Binary(_, left, right) => Representable(left) && Representable(right)
  }

  // ---------------------------------------------------------------- printing

  ghost function NumberText(n: Num): (text: string)
    requires IsDecimal(n)
    ensures IsNumberText(text) && ToNumber(text) == n
  {
    LiteralsAreDecimals(n);
    var text :| IsNumberText(text) && ToNumber(text) == n;
    text
  }

  ghost function LiteralToken(v: Value): Kind
    requires Representable(Literal(v))
  {
    if v.Bool? then Ident(if v.b then "true" else "false")
    else if v.Str? then StringLit(v.s)
    else NumberLit(NumberText(v.n))
  }

  ghost function LeafToken(e: Expr): Kind
    requires Representable(e) && !e.Not? && !e.Binary?
  {
    if e.Literal? then LiteralToken(e.value) else Ident(JoinParts(PathParts(e)))
  }

  function Parenthesized(t: Tree, level: nat): Tree {
    if Rule(t) < level then Paren(t) else t
  }

  /** The tree with parentheses only where precedence or the lean of chains calls for them. */
  ghost function Print(e: Expr): Tree
    requires Representable(e)
  {
    match e
    case Not(operand) => Negated(Parenthesized(Print(operand), 3))
    case Binary(op, left, right) =>
      Chained(op, Parenthesized(Print(left), Level(op)), Parenthesized(Print(right), Level(op) + 1))
    case _ => Leaf(LeafToken(e))
  }

  predicate SpellableTree(t: Tree) {
    AllSpellable(Yield(t))
  }

  lemma {:induction false} JoinedIsSpellable(parts: seq<string>)
    requires |parts| >= 1 && forall i :: 0 <= i < |parts| ==> All(parts[i], InIdent)
    ensures All(JoinParts(parts), InIdent) && parts[0] <= JoinParts(parts)
  {
    if |parts| > 1 {
      JoinedIsSpellable(parts[1..]);
    }
  }

  lemma {:induction false} PathIsSpellable(e: Expr)
    requires IsReference(e) && Representable(e)
    ensures Spellable(Ident(JoinParts(PathParts(e))))
  {
    var parts := PathParts(e);
    forall i | 0 <= i < |parts|
      ensures All(parts[i], InIdent)
    {
      FieldNamesAreSpellable();
    }
    JoinedIsSpellable(parts);
    assert JoinParts(parts)[0] == parts[0][0];
  }

  /** No path is taken for a truth value. */
  lemma {:induction false} PathIsNoKeyword(e: Expr)
    requires IsReference(e)
    ensures JoinParts(PathParts(e)) != "true" && JoinParts(PathParts(e)) != "false"
  {
    var path := JoinParts(PathParts(e));
    assert path[0] == PathParts(e)[0][0];
  }

  lemma {:induction false} LeafTokenIsRight(e: Expr)
    requires Representable(e) && !e.Not? && !e.Binary?
    ensures Spellable(LeafToken(e)) && LeafExpr(LeafToken(e)) == Some(e)
  {
    if !e.Literal? {
      PathIsSpellable(e);
      PathIsNoKeyword(e);
      ReferencesAreTheirPaths(JoinParts(PathParts(e)), e);
    }
  }

  lemma {:induction false} FieldNamesAreSpellable()
    ensures forall f :: All(FieldName(f), InIdent)
  {
  }

  ghost predicate Prints(t: Tree, e: Expr) {
    Grammatical(t) && Ast(t) == e && SpellableTree(t)
  }

  lemma {:induction false} ParenthesizedPrints(t: Tree, level: nat, e: Expr)
    requires Prints(t, e) && level <= 4
    ensures Prints(Parenthesized(t, level), e) && Rule(Parenthesized(t, level)) >= level
  {
  }

  lemma {:induction false} PrintIsRight(e: Expr)
    requires Representable(e)
    ensures Prints(Print(e), e)
  {
    match e
    case Not(operand) =>
      PrintIsRight(operand);
      ParenthesizedPrints(Print(operand), 3, operand);
    case Binary(op, left, right) =>
      PrintIsRight(left);
      PrintIsRight(right);
      ParenthesizedPrints(Print(left), Level(op), left);
      ParenthesizedPrints(Print(right), Level(op) + 1, right);
    case _ => LeafTokenIsRight(e);
  }

  /** Parsing undoes printing: tokens, spelling, parentheses and lean of chains included. */
  lemma {:induction false} ParsingUndoesPrinting(e: Expr)
    requires Representable(e)
    ensures SpellableTree(Print(e)) && ParseExpression(Spell(Yield(Print(e)))) == Ok(e)
  {
    var ks := Yield(Print(e));
    PrintIsRight(e);
    SpellingIsTokenized(ks, 0);
    YieldHasNoEof(Print(e));
    ParsesExactlyTheGrammar(ks, e);
  }

  // ------------------------------------------------------ no fewer parentheses

  function Parentheses(t: Tree): nat {
    match t
    case Leaf(_) => 0
    case Paren(inner) => 1 + Parentheses(inner)
    case Negated(operand) => Parentheses(operand)
    case Chained(_, left, right) => Parentheses(left) + Parentheses(right)
  }

  lemma {:induction false} NoFewerAt(t: Tree, level: nat)
    requires Grammatical(t) && Representable(Ast(t)) && Rule(t) >= level
    ensures Parentheses(Parenthesized(Print(Ast(t)), level)) <= Parentheses(t)
  {
    match t
    case Leaf(_) =>
    case Paren(inner) => NoFewerAt(inner, 0);
    case Negated(operand) => NoFewerAt(operand, 3);
    case Chained(op, left, right) =>
      NoFewerAt(left, Level(op));
      NoFewerAt(right, Level(op) + 1);
  }

  /** Of all trees of the grammar with the same meaning none has fewer parentheses than the printed one. */
  lemma {:induction false} PrintsFewestParentheses(t: Tree)
    requires Grammatical(t) && Representable(Ast(t))
    ensures Grammatical(Print(Ast(t))) && Ast(Print(Ast(t))) == Ast(t)
    ensures Parentheses(Print(Ast(t))) <= Parentheses(t)
  {
    PrintIsRight(Ast(t));
    NoFewerAt(t, 0);
  }

  // -------------------------------------------------- sources have such expressions

  lemma {:induction false} SplitKeepsCharacters(s: string)
    requires All(s, InIdent)
    ensures forall i :: 0 <= i < |Split(s)| ==> All(Split(s)[i], InIdent)
  {
    if s != "" {
      SplitKeepsCharacters(s[1..]);
    }
  }

  lemma {:induction false} LeafIsRepresentable(k: Kind)
    requires Spellable(k) && LeafExpr(k).Some?
    ensures Representable(LeafExpr(k).value)
  {
    if k.NumberLit? {
      LiteralIsDecimal(k.text);
    }
    if k.Ident? && k.text != "true" && k.text != "false" {
      SplitKeepsCharacters(k.text);
      SplitIsDotFree(k.text);
    }
  }

  lemma {:induction false} TreeIsRepresentable(t: Tree)
    requires Grammatical(t) && SpellableTree(t)
    ensures Representable(Ast(t))
  {
    var ks := Yield(t);
    match t
    case Leaf(k) =>
      assert Spellable(ks[0]);
      LeafIsRepresentable(k);
    case Paren(inner) =>
      assert forall i :: 0 <= i < |Yield(inner)| ==> Yield(inner)[i] == ks[i + 1];
      TreeIsRepresentable(inner);
    case Negated(operand) =>
      assert forall i :: 0 <= i < |Yield(operand)| ==> Yield(operand)[i] == ks[i + 1];
      TreeIsRepresentable(operand);
    case Chained(_, left, right) =>
      assert forall i :: 0 <= i < |Yield(left)| ==> Yield(left)[i] == ks[i];
      assert forall i :: 0 <= i < |Yield(right)| ==> Yield(right)[i] == ks[i + |Yield(left)| + 1];
      TreeIsRepresentable(left);
      TreeIsRepresentable(right);
  }

  /** A source that parses has tokens that the grammar derives, with the answer as their tree. */
  lemma {:induction false} ParsedSource(source: string) returns (t: Tree)
    requires ParseExpression(source).Ok?
    ensures Grammatical(t) && SpellableTree(t) && Ast(t) == ParseExpression(source).value
    ensures Kinds(Lex(source, 0).value) == Yield(t) + [Eof]
  {
    var tokens := Lex(source, 0).value;
    var ks, last := Kinds(tokens), |tokens| - 1;
    LexedAreInPlace(source, 0);
    var ts := ks[..last];
    assert ks == ts + [Eof];
    assert AllSpellable(ts);
    ParsesExactlyTheGrammar(ts, ParseExpression(source).value);
    t :| Grammatical(t) && Yield(t) == ts && Ast(t) == ParseExpression(source).value;
  }

  /** The expressions that some source parses to are exactly the representable ones. */
  lemma {:induction false} SourcesExpressRepresentable(e: Expr)
    ensures (exists source :: ParseExpression(source) == Ok(e)) <==> Representable(e)
  {
    if Representable(e) {
      ParsingUndoesPrinting(e);
    }
    if source :| ParseExpression(source) == Ok(e) {
      var t := ParsedSource(source);
      TreeIsRepresentable(t);
    }
  }
}
