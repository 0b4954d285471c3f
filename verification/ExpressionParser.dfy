/** The tokenizer's loops and the recursive-descent parser's cursor, against their specifications. */
module ExpressionParser {
  import opened Wrappers
  import opened Expressions
  import opened ExpressionGrammar
  import opened ExpressionTokens
  import opened ExpressionPrinter

  // --------------------------------------------------------------- tokenizer

  lemma {:induction false} SpanByStops(s: string, p: char -> bool, n: nat)
    requires n <= |s| && All(s[..n], p) && (n < |s| ==> !p(s[n]))
    ensures Span(s, p) == n
  {
    if n > 0 {
      assert s[0] == s[..n][0];
      assert s[1..][..n - 1] == s[..n][1..];
      SpanByStops(s[1..], p, n - 1);
    }
  }

  /** The loop that collects characters into a token's value. */
  method Collect(source: string, start: nat, p: char -> bool) returns (value: string, i: nat)
    requires start <= |source|
    ensures i == start + Span(source[start..], p) <= |source| && value == source[start..i]
  {
    i, value := start, "";
    while i < |source| && p(source[i])
      invariant start <= i <= |source| && value == source[start..i]
      invariant All(source[start..i], p)
    {
      value := value + [source[i]];
      i := i + 1;
    }
    assert source[start..][..i - start] == source[start..i];
    SpanByStops(source[start..], p, i - start);
  }

  function Before(tokens: seq<Token>, rest: Lexed): Lexed {
    match rest
    case Ok(ts) => Ok(tokens + ts)
    case Err(error) => Err(error)
  }

  method NextToken(source: string, i: nat) returns (r: Result<(Kind, nat), SyntaxProblem>)
    requires i < |source| && !IsSpace(source[i])
    ensures r == FirstToken(source[i..])
  {
    var ch := source[i];
    var next := if i + 1 < |source| then Some(source[i + 1]) else None;
    assert i + 1 < |source| ==> source[i..][..2] == [ch, source[i + 1]];
    if ch == '(' {
      r := Ok((LParen, 1));
    } else if ch == ')' {
      r := Ok((RParen, 1));
    } else if ch == '\'' {
      var value, j := Collect(source, i + 1, InString);
      assert source[i..][1..] == source[i + 1..];
      if j >= |source| {
        r := Err(UnterminatedString);
      } else {
        assert source[i..][1..j - i] == value;
        r := Ok((StringLit(value), j + 1 - i));
      }
    } else if ch == '=' && next == Some('=') {
      r := Ok((Operator(Eq), 2));
    } else if ch == '!' && next == Some('=') {
      r := Ok((Operator(Neq), 2));
    } else if ch == '&' && next == Some('&') {
      r := Ok((Operator(And), 2));
    } else if ch == '|' && next == Some('|') {
      r := Ok((Operator(Or), 2));
    } else if ch == '!' {
      r := Ok((Bang, 1));
    } else if IsDigit(ch) {
      var value, j := Collect(source, i, InNumber);
      assert source[i..][..j - i] == value;
      r := Ok((NumberLit(value), j - i));
    } else if IsLetter(ch) {
      var value, j := Collect(source, i, InIdent);
      assert source[i..][..j - i] == value;
      r := Ok((Ident(value), j - i));
    } else {
      r := Err(UnexpectedCharacter);
    }
  }

  /** What is left of the source after a token, or a blank, has still the same answer. */
  lemma {:induction false} LexOneOn(source: string, i: nat, tokens: seq<Token>)
    requires i < |source|
    ensures IsSpace(source[i]) ==> Lex(source[i..], i) == Lex(source[i + 1..], i + 1)
    ensures !IsSpace(source[i]) ==>
      match FirstToken(source[i..])
      case Err(problem) => Lex(source[i..], i) == Err(SyntaxError(problem, i))
      case Ok((kind, n)) =>
        Before(tokens, Lex(source[i..], i)) == Before(tokens + [Token(kind, i)], Lex(source[i + n..], i + n))
  {
    var s := source[i..];
    assert s[1..] == source[i + 1..];
    if !IsSpace(source[i]) && FirstToken(s).Ok? {
      var (kind, n) := FirstToken(s).value;
      assert s[n..] == source[i + n..];
      var rest := Lex(source[i + n..], i + n);
      if rest.Ok? {
        assert (tokens + [Token(kind, i)]) + rest.value == tokens + ([Token(kind, i)] + rest.value);
      }
    }
  }

  method Tokenize(source: string) returns (r: Lexed)
    ensures r == Lex(source, 0)
  {
    var tokens: seq<Token>, i := [], 0;
    assert source[0..] == source && forall ts: seq<Token> :: tokens + ts == ts;
    while i < |source|
      invariant 0 <= i <= |source|
      invariant Lex(source, 0) == Before(tokens, Lex(source[i..], i))
    {
      LexOneOn(source, i, tokens);
      if IsSpace(source[i]) {
        i := i + 1;
      } else {
        var first := NextToken(source, i);
        if first.Err? {
          return Err(SyntaxError(first.error, i));
        }
        var (kind, n) := first.value;
        tokens := tokens + [Token(kind, i)];
        i := i + n;
      }
    }
    return Ok(tokens + [Token(Eof, i)]);
  }

  // ------------------------------------------------------------------ parser

  class Parser {
    const tokens: seq<Token>
    var pos: nat

    constructor (tokens: seq<Token>)
      requires tokens != [] && tokens[|tokens| - 1].kind == Eof
      ensures Valid() && this.tokens == tokens && pos == 0
    {
      this.tokens := tokens;
      pos := 0;
    }

    ghost predicate Valid()
      reads this
    {
      pos < |tokens| && tokens[|tokens| - 1].kind == Eof
    }

    ghost function Left(): (ks: seq<Kind>)
      reads this
      requires Valid()
    {
      Kinds(tokens)[pos..]
    }

    /** The cursor and the answer are where the specification says. */
    ghost predicate Follows(r: Result<Expr, SyntaxError>, spec: Parsed)
      reads this
      requires Valid()
    {
      match spec
      case Ok((e, rest)) => r == Ok(e) && Left() == rest
      case Err(f) => r == Err(SyntaxError(Misparsed(f.complaint), PositionOf(tokens, f.left)))
    }

    /** What is parsed so far and what is left make a chain with the answer of the specification. */
    ghost predicate OnChain(level: nat, r: Result<Expr, SyntaxError>, spec: Parsed)
      reads this
      requires Valid() && level <= 2
    {
      if r.Ok? then spec == ParseChain(level, r.value, Left()) else Follows(r, spec)
    }

    function Peek(): (k: Kind)
      reads this
      requires Valid()
      ensures k == Head(Left())
    {
      tokens[pos].kind
    }

    method Advance()
      requires Valid() && Peek() != Eof
      modifies this`pos
      ensures Valid() && pos == old(pos) + 1 && Left() == old(Left())[1..]
    {
      pos := pos + 1;
    }

    method Fail(complaint: Complaint) returns (r: Result<Expr, SyntaxError>)
      requires Valid()
      ensures Follows(r, Err(Failure(complaint, |Left()|)))
    {
      r := Err(SyntaxError(Misparsed(complaint), tokens[pos].pos));
    }

    method ParseOr() returns (r: Result<Expr, SyntaxError>)
      requires Valid()
      modifies this`pos
      ensures Valid() && pos >= old(pos) && Follows(r, ParseLevel(0, old(Left())))
      decreases |tokens| - pos, 5
    {
      ghost var spec := ParseLevel(0, Left());
      r := ParseAnd();
      while r.Ok? && Peek() == Operator(Or)
        invariant Valid() && pos >= old(pos) && (r.Ok? ==> pos > old(pos)) && OnChain(0, r, spec)
        decreases |tokens| - pos, r.Ok?
      {
        var left := r.value;
        Advance();
        var right := ParseAnd();
        r := if right.Err? then right else Ok(Binary(Or, left, right.value));
      }
    }

    method ParseAnd() returns (r: Result<Expr, SyntaxError>)
      requires Valid()
      modifies this`pos
      ensures Valid() && pos >= old(pos) && (r.Ok? ==> pos > old(pos)) && Follows(r, ParseLevel(1, old(Left())))
      decreases |tokens| - pos, 4
    {
      ghost var spec := ParseLevel(1, Left());
      r := ParseEquality();
      while r.Ok? && Peek() == Operator(And)
        invariant Valid() && pos >= old(pos) && (r.Ok? ==> pos > old(pos)) && OnChain(1, r, spec)
        decreases |tokens| - pos, r.Ok?
      {
        var left := r.value;
        Advance();
        var right := ParseEquality();
        r := if right.Err? then right else Ok(Binary(And, left, right.value));
      }
    }

    method ParseEquality() returns (r: Result<Expr, SyntaxError>)
      requires Valid()
      modifies this`pos
      ensures Valid() && pos >= old(pos) && (r.Ok? ==> pos > old(pos)) && Follows(r, ParseLevel(2, old(Left())))
      decreases |tokens| - pos, 3
    {
      ghost var spec := ParseLevel(2, Left());
      r := ParsePrefix();
      while r.Ok? && (Peek() == Operator(Eq) || Peek() == Operator(Neq))
        invariant Valid() && pos >= old(pos) && (r.Ok? ==> pos > old(pos)) && OnChain(2, r, spec)
        decreases |tokens| - pos, r.Ok?
      {
        var left, op := r.value, Peek().op;
        Advance();
        var right := ParsePrefix();
        r := if right.Err? then right else Ok(Binary(op, left, right.value));
      }
    }

    method ParsePrefix() returns (r: Result<Expr, SyntaxError>)
      requires Valid()
      modifies this`pos
      ensures Valid() && pos >= old(pos) && (r.Ok? ==> pos > old(pos)) && Follows(r, ParseLevel(3, old(Left())))
      decreases |tokens| - pos, 2
    {
      if Peek() == Bang {
        Advance();
        var operand := ParsePrefix();
        r := if operand.Err? then operand else Ok(Not(operand.value));
      } else {
        r := ParseAtom();
      }
    }

    method ParseAtom() returns (r: Result<Expr, SyntaxError>)
      requires Valid()
      modifies this`pos
      ensures Valid() && pos >= old(pos) && (r.Ok? ==> pos > old(pos)) && Follows(r, ParsePrimary(old(Left())))
      decreases |tokens| - pos, 1
    {
      var token := Peek();
      if token == LParen {
        Advance();
        r := ParseOr();
        if r.Ok? {
          if Peek() != RParen {
            r := Fail(ExpectedCloseParen);
          } else {
            Advance();
          }
        }
      } else if token.StringLit? || token.NumberLit? || token.Ident? {
        var e := LeafExpr(token);
        if e.None? {
          r := Fail(InvalidReference);
        } else {
          Advance();
          r := Ok(e.value);
        }
      } else {
        r := Fail(UnexpectedToken);
      }
    }
  }

  /** The whole parser answers as specified. */
  method Parse(source: string) returns (r: Result<Expr, SyntaxError>)
    ensures r == ParseExpression(source)
  {
    var tokens :- Tokenize(source);
    LexedAreInPlace(source, 0);
    var parser := new Parser(tokens);
    r := parser.ParseOr();
    if r.Ok? && parser.Peek() != Eof {
      r := parser.Fail(TrailingInput);
    }
  }
}
