/** Where parsing fails: at the first token that no expression could have there, and nowhere else. */
module ExpressionErrors {
  import opened Wrappers
  import opened Expressions
  import opened ExpressionGrammar
  import opened ExpressionTokens
  import opened ExpressionPrinter

  // ------------------------------------------- the answer depends on what was read

  /** How many tokens were accepted. */
  function Accepted(ts: seq<Kind>, r: Parsed): int {
    |ts| - if r.Ok? then |r.value.1| else r.error.left
  }

  /** The same answer, given behind as many tokens of another list. */
  function Moved(r: Parsed, k: nat, ts: seq<Kind>): Parsed
    requires k <= |ts|
  {
    match r
    case Ok((e, _)) => Ok((e, ts[k..]))
    case Err(f) => Err(Failure(f.complaint, |ts| - k))
  }

  /** What is behind so many tokens. */
  function From(ts: seq<Kind>, k: nat): seq<Kind> {
    if k <= |ts| then ts[k..] else []
  }

  predicate EndsInEof(ts: seq<Kind>) {
    ts != [] && ts[|ts| - 1] == Eof
  }

  /** The lists have these tokens and the one behind them in common. */
  predicate Alike(a: seq<Kind>, b: seq<Kind>, k: nat) {
    k < |a| && k < |b| && a[..k + 1] == b[..k + 1]
  }

  /** The answer to a list is the answer to any other that is alike as far as this one was read. */
  ghost predicate ReadsAhead(a: seq<Kind>, r: Parsed, b: seq<Kind>, s: Parsed) {
    && 0 <= Accepted(a, r) < |a|
    && (r.Ok? ==> r.value.1 == a[Accepted(a, r)..])
    && (Alike(a, b, Accepted(a, r)) ==> s == Moved(r, Accepted(a, r), b))
  }

  lemma {:induction false} AlikeBehind(a: seq<Kind>, b: seq<Kind>, k: nat, n: nat)
    requires Alike(a, b, k + n)
    ensures Alike(a, b, k) && Alike(a[k..], b[k..], n)
  {
    assert a[..k + 1] == a[..k + n + 1][..k + 1] && b[..k + 1] == b[..k + n + 1][..k + 1];
    assert a[k..][..n + 1] == a[..k + n + 1][k..] && b[k..][..n + 1] == b[..k + n + 1][k..];
  }

  lemma {:induction false} AlikeHead(a: seq<Kind>, b: seq<Kind>, k: nat)
    requires Alike(a, b, k)
    ensures Head(a) == Head(b)
  {
    assert a[0] == a[..k + 1][0] && b[0] == b[..k + 1][0];
  }

  lemma {:induction false} LevelReadsAhead(level: nat, a: seq<Kind>, b: seq<Kind>)
    requires level <= 3 && EndsInEof(a)
    ensures ReadsAhead(a, ParseLevel(level, a), b, ParseLevel(level, b))
    decreases |a|, 5 - level
  {
    if level == 3 {
      UnaryReadsAhead(a, b);
    } else {
      LevelReadsAhead(level + 1, a, b);
      var r := ParseLevel(level + 1, a);
      if r.Ok? {
        var k := Accepted(a, r);
        ChainReadsAhead(level, r.value.0, a[k..], From(b, k));
        Joins(a, b, k, ParseChain(level, r.value.0, a[k..]), ParseChain(level, r.value.0, From(b, k)));
      }
    }
  }

  /** What is read behind some tokens is read of the whole. */
  lemma {:induction false} Joins(a: seq<Kind>, b: seq<Kind>, k: nat, r: Parsed, s: Parsed)
    requires k < |a| && ReadsAhead(a[k..], r, From(b, k), s)
    ensures Accepted(a, r) == k + Accepted(a[k..], r) < |a|
    ensures ReadsAhead(a, r, b, s)
    ensures Alike(a, b, Accepted(a, r)) ==> Alike(a, b, k)
  {
    var n := Accepted(a[k..], r);
    if Alike(a, b, k + n) {
      AlikeBehind(a, b, k, n);
    }
  }

  lemma {:induction false} ChainReadsAhead(level: nat, left: Expr, a: seq<Kind>, b: seq<Kind>)
    requires level <= 2 && EndsInEof(a)
    ensures ReadsAhead(a, ParseChain(level, left, a), b, ParseChain(level, left, b))
    decreases |a|, 0
  {
    if Continues(Head(a), level) {
      LevelReadsAhead(level + 1, a[1..], From(b, 1));
      var right, other := ParseLevel(level + 1, a[1..]), ParseLevel(level + 1, From(b, 1));
      Joins(a, b, 1, right, other);
      if right.Ok? {
        var k := Accepted(a, right);
        var longer := Binary(a[0].op, left, right.value.0);
        ChainReadsAhead(level, longer, a[k..], From(b, k));
        Joins(a, b, k, ParseChain(level, longer, a[k..]), ParseChain(level, longer, From(b, k)));
        ChainGoesOn(level, left, a, right);
      }
      if Alike(a, b, Accepted(a, right)) {
        AlikeHead(a, b, Accepted(a, right));
        ChainGoesOn(level, left, b, other);
      }
    } else if Alike(a, b, 0) {
      AlikeHead(a, b, 0);
    }
  }

  lemma {:induction false} ChainGoesOn(level: nat, left: Expr, ts: seq<Kind>, right: Parsed)
    requires level <= 2 && Continues(Head(ts), level) && right == ParseLevel(level + 1, ts[1..])
    ensures ParseChain(level, left, ts) ==
      if right.Ok? then ParseChain(level, Binary(ts[0].op, left, right.value.0), right.value.1) else Err(right.error)
  {
  }

  lemma {:induction false} UnaryReadsAhead(a: seq<Kind>, b: seq<Kind>)
    requires EndsInEof(a)
    ensures ReadsAhead(a, ParseUnary(a), b, ParseUnary(b))
    decreases |a|, 1
  {
    if Alike(a, b, 0) {
      AlikeHead(a, b, 0);
    }
    if Head(a) == Bang {
      var behind := From(b, 1);
      UnaryReadsAhead(a[1..], behind);
      Joins(a, b, 1, ParseUnary(a[1..]), ParseUnary(behind));
    } else {
      PrimaryReadsAhead(a, b);
    }
  }

  /** What becomes of what was parsed within a parenthesis. */
  function Closed(inner: Parsed): Parsed {
    match inner
    case Err(f) => Err(f)
    case Ok((e, rest)) => if Head(rest) == RParen then Ok((e, rest[1..])) else Err(Failure(ExpectedCloseParen, |rest|))
  }

  lemma {:induction false} ClosesAlike(a: seq<Kind>, r: Parsed, b: seq<Kind>, s: Parsed)
    requires EndsInEof(a) && ReadsAhead(a, r, b, s)
    ensures ReadsAhead(a, Closed(r), b, Closed(s))
  {
    var k := Accepted(a, r);
    if r.Ok? {
      var n := Accepted(a, Closed(r));
      assert Head(a[k..]) == a[k];
      if Alike(a, b, n) {
        AlikeBehind(a, b, k, n - k);
        AlikeHead(a[k..], b[k..], n - k);
      }
    }
  }

  lemma {:induction false} PrimaryReadsAhead(a: seq<Kind>, b: seq<Kind>)
    requires EndsInEof(a)
    ensures ReadsAhead(a, ParsePrimary(a), b, ParsePrimary(b))
    decreases |a|, 0
  {
    if Head(a) == LParen {
      LevelReadsAhead(0, a[1..], From(b, 1));
      var inner, other := ParseLevel(0, a[1..]), ParseLevel(0, From(b, 1));
      Joins(a, b, 1, inner, other);
      ClosesAlike(a, inner, b, other);
      PrimaryIsClosed(a);
      if Alike(a, b, Accepted(a, Closed(inner))) {
        AlikeHead(a, b, Accepted(a, Closed(inner)));
        PrimaryIsClosed(b);
      }
    } else if Alike(a, b, 0) {
      AlikeHead(a, b, 0);
      LeafReadsAhead(a, b);
    } else {
      LeafReadsAhead(a, b);
    }
  }

  lemma {:induction false} PrimaryIsClosed(ts: seq<Kind>)
    requires Head(ts) == LParen
    ensures ParsePrimary(ts) == Closed(ParseLevel(0, ts[1..]))
  {
  }

  lemma {:induction false} LeafReadsAhead(a: seq<Kind>, b: seq<Kind>)
    requires EndsInEof(a) && Head(a) != LParen && (Alike(a, b, 0) ==> Head(b) == Head(a))
    ensures ReadsAhead(a, ParsePrimary(a), b, ParsePrimary(b))
  {
    var k := Accepted(a, ParsePrimary(a));
    if Alike(a, b, k) {
      AlikeBehind(a, b, 0, k);
    }
  }

  // ------------------------------------------------ what was read can be completed

  /** A stand-in for the operand that is missing. */
  const ANY: Kind := StringLit("")

  /** A list that begins with the tokens that were accepted, and goes on with what the complaint misses. */
  ghost predicate GoesOn(y: seq<Kind>, ts: seq<Kind>, f: Failure) {
    && f.left <= |ts| && f.complaint != TrailingInput
    && var k := |ts| - f.left;
       k < |y| && y[..k] == ts[..k] && y[k] == (if f.complaint == ExpectedCloseParen then RParen else ANY)
       && (f.complaint == InvalidReference <==> f.complaint != ExpectedCloseParen && Head(ts[k..]).Ident?)
       && (f.complaint == InvalidReference ==> LeafExpr(Head(ts[k..])).None?)
  }

  /** A tree of the level with such a list. */
  ghost predicate Completes(t: Tree, level: nat, ts: seq<Kind>, f: Failure) {
    Grammatical(t) && Rule(t) >= level && GoesOn(Yield(t), ts, f)
  }

  lemma {:induction false} GoesOnWithin(y: seq<Kind>, ts: seq<Kind>, f: Failure, front: seq<Kind>, end: seq<Kind>)
    requires GoesOn(y, ts, f)
    ensures GoesOn(front + y + end, front + ts, f)
  {
    var k, n := |ts| - f.left, |front|;
    var all, whole := front + ts, front + y + end;
    assert all[n + k..] == ts[k..];
    assert whole[n + k] == y[k];
    assert whole[..n + k] == front + y[..k];
    assert all[..n + k] == front + ts[..k];
  }

  lemma {:induction false} LevelCompletes(level: nat, ts: seq<Kind>) returns (t: Tree)
    requires level <= 3 && ParseLevel(level, ts).Err?
    ensures Completes(t, level, ts, ParseLevel(level, ts).error)
    decreases |ts|, 5 - level
  {
    if level == 3 {
      t := UnaryCompletes(ts);
    } else if ParseLevel(level + 1, ts).Err? {
      t := LevelCompletes(level + 1, ts);
    } else {
      var t0 := ParsedIsDerivable(level + 1, ts);
      var rest := ParseLevel(level + 1, ts).value.1;
      t := ChainCompletes(level, t0, rest);
      assert ts == Yield(t0) + rest;
    }
  }

  lemma {:induction false} OperandCompletes(level: nat, t0: Tree, op: BinaryOp, t1: Tree, ts: seq<Kind>, f: Failure)
    requires level <= 2 && Grammatical(t0) && Rule(t0) >= level && Level(op) == level && Completes(t1, level + 1, ts, f)
    ensures Completes(Chained(op, t0, t1), level, Yield(t0) + ([Operator(op)] + ts), f)
  {
    GoesOnWithin(Yield(t1), ts, f, Yield(t0) + [Operator(op)], []);
    Regroup(Yield(t0), Operator(op), Yield(t1), []);
    Regroup(Yield(t0), Operator(op), ts, []);
    LongerChain(level, t0, op, t1, Yield(t1), []);
  }

  lemma {:induction false} Regroup(a: seq<Kind>, k: Kind, b: seq<Kind>, rest: seq<Kind>)
    ensures a + [k] + b + rest == a + ([k] + (b + rest))
    ensures a + ([k] + b) == a + [k] + b
    ensures b + [] == b
  {
  }

  lemma {:induction false} ChainCompletes(level: nat, t0: Tree, ts: seq<Kind>) returns (t: Tree)
    requires level <= 2 && Grammatical(t0) && Rule(t0) >= level && ParseChain(level, Ast(t0), ts).Err?
    ensures Completes(t, level, Yield(t0) + ts, ParseChain(level, Ast(t0), ts).error)
    decreases |ts|, 0
  {
    var right := ParseLevel(level + 1, ts[1..]);
    ChainGoesOn(level, Ast(t0), ts, right);
    assert ts == [Operator(ts[0].op)] + ts[1..];
    if right.Err? {
      var t1 := LevelCompletes(level + 1, ts[1..]);
      OperandCompletes(level, t0, ts[0].op, t1, ts[1..], right.error);
      t := Chained(ts[0].op, t0, t1);
    } else {
      var t1 := ParsedIsDerivable(level + 1, ts[1..]);
      LongerChain(level, t0, ts[0].op, t1, ts[1..], right.value.1);
      t := ChainCompletes(level, Chained(ts[0].op, t0, t1), right.value.1);
    }
  }

  lemma {:induction false} LongerChain(level: nat, t0: Tree, op: BinaryOp, t1: Tree, ts: seq<Kind>, rest: seq<Kind>)
    requires Grammatical(t0) && Rule(t0) >= level && Level(op) == level && Grammatical(t1) && Rule(t1) > level
    requires Yield(t1) + rest == ts
    ensures var longer := Chained(op, t0, t1);
      && Grammatical(longer) && Rule(longer) == level && Ast(longer) == Binary(op, Ast(t0), Ast(t1))
      && Yield(longer) + rest == Yield(t0) + ([Operator(op)] + ts)
  {
    Regroup(Yield(t0), Operator(op), Yield(t1), rest);
  }

  lemma {:induction false} UnaryCompletes(ts: seq<Kind>) returns (t: Tree)
    requires ParseUnary(ts).Err?
    ensures Completes(t, 3, ts, ParseUnary(ts).error)
    decreases |ts|, 1
  {
    if Head(ts) == Bang {
      var t0 := UnaryCompletes(ts[1..]);
      t := Negated(t0);
      assert Yield(t) == [Bang] + Yield(t0) + [];
      GoesOnWithin(Yield(t0), ts[1..], ParseUnary(ts[1..]).error, [Bang], []);
      assert [Bang] + ts[1..] == ts;
    } else if Head(ts) == LParen {
      t := ParenCompletes(ts);
    } else {
      t := Leaf(ANY);
      assert ts[0..] == ts;
    }
  }

  lemma {:induction false} ParenCompletes(ts: seq<Kind>) returns (t: Tree)
    requires Head(ts) == LParen && ParsePrimary(ts).Err?
    ensures Completes(t, 3, ts, ParsePrimary(ts).error)
    decreases |ts|, 0
  {
    assert [LParen] + ts[1..] == ts;
    if ParseLevel(0, ts[1..]).Err? {
      var t0 := LevelCompletes(0, ts[1..]);
      t := Paren(t0);
      assert Yield(t) == [LParen] + Yield(t0) + [RParen];
      GoesOnWithin(Yield(t0), ts[1..], ParseLevel(0, ts[1..]).error, [LParen], [RParen]);
    } else {
      var t0 := ParsedIsDerivable(0, ts[1..]);
      t := Paren(t0);
      var rest := ParseLevel(0, ts[1..]).value.1;
      assert ts == [LParen] + (Yield(t0) + rest);
      assert Yield(t) == [LParen] + Yield(t0) + [RParen];
    }
  }

  // ----------------------------------------------------------------------- theorem

  /** Some expression begins with these tokens. */
  ghost predicate Begins(ts: seq<Kind>) {
    exists t :: Grammatical(t) && ts <= Yield(t) + [Eof]
  }

  /**
   * Parsing fails at one token: some expression begins with all that is before it, and none goes on
   * with it. Before trailing input there is a whole expression, a missing parenthesis could be
   * closed, and otherwise an operand is missing, for which a word that is no reference may stand.
   */
  ghost predicate FailsAt(ts: seq<Kind>, k: nat, complaint: Complaint) {
    && k < |ts| && Begins(ts[..k]) && !Begins(ts[..k + 1])
    && match complaint
       case TrailingInput => exists e :: Derives(ts[..k], e)
       case ExpectedCloseParen => Begins(ts[..k] + [RParen])
       case UnexpectedToken => Begins(ts[..k] + [ANY]) && !ts[k].Ident?
       case InvalidReference => Begins(ts[..k] + [ANY]) && ts[k].Ident? && LeafExpr(ts[k]).None?
  }

  lemma {:induction false} AcceptedIfAlike(ts: seq<Kind>, t: Tree)
    requires EndsInEof(ts) && Grammatical(t) && Accepted(ts, ParseLevel(0, ts)) >= 0
    requires Alike(ts, Yield(t) + [Eof], Accepted(ts, ParseLevel(0, ts)))
    ensures ParseAll(ts).Ok?
  {
    var k, full := Accepted(ts, ParseLevel(0, ts)), Yield(t) + [Eof];
    TreeIsParsed(0, t, [Eof]);
    LevelReadsAhead(0, ts, full);
    assert full[k..] == [Eof];
    AlikeBehind(ts, full, k, 0);
    AlikeHead(ts[k..], full[k..], 0);
  }

  lemma {:induction false} BeginsIff(ts: seq<Kind>, k: nat, t: Tree)
    requires k < |ts| && Grammatical(t)
    ensures ts[..k + 1] <= Yield(t) + [Eof] <==> Alike(ts, Yield(t) + [Eof], k)
  {
  }

  lemma {:induction false} NothingGoesOn(ts: seq<Kind>, k: nat)
    requires EndsInEof(ts) && ParseAll(ts).Err? && k == Accepted(ts, ParseLevel(0, ts)) && k < |ts|
    ensures !Begins(ts[..k + 1])
  {
    forall t | Grammatical(t)
      ensures !(ts[..k + 1] <= Yield(t) + [Eof])
    {
      BeginsIff(ts, k, t);
      if Alike(ts, Yield(t) + [Eof], k) {
        AcceptedIfAlike(ts, t);
      }
    }
  }

  lemma {:induction false} TrailsAt(ts: seq<Kind>, k: nat)
    requires ParseLevel(0, ts).Ok? && k == Accepted(ts, ParseLevel(0, ts)) && k < |ts|
    ensures Begins(ts[..k]) && exists e :: Derives(ts[..k], e)
  {
    var t := ParsedIsDerivable(0, ts);
    assert Yield(t) == ts[..k];
    assert Derives(ts[..k], Ast(t)) && ts[..k] <= Yield(t) + [Eof];
  }

  lemma {:induction false} BeginsWhole(t: Tree, n: nat)
    requires Grammatical(t) && n <= |Yield(t)|
    ensures Begins(Yield(t)[..n])
  {
    assert Yield(t)[..n] <= Yield(t) + [Eof];
  }

  lemma {:induction false} MissesAt(ts: seq<Kind>, t: Tree, f: Failure, k: nat)
    requires Completes(t, 0, ts, f) && k == |ts| - f.left && k < |ts|
    ensures Begins(ts[..k])
    ensures Begins(ts[..k] + [if f.complaint == ExpectedCloseParen then RParen else ANY])
  {
    BeginsWhole(t, k);
    BeginsWhole(t, k + 1);
    assert ts[..k] + [Yield(t)[k]] == Yield(t)[..k + 1];
  }

  /** The parser fails at such a token, with the complaint that fits it. */
  lemma {:induction false} FailsAtFirstWrongToken(ts: seq<Kind>) returns (k: nat)
    requires EndsInEof(ts) && ParseAll(ts).Err?
    ensures FailsAt(ts, k, ParseAll(ts).error.complaint) && ParseAll(ts).error.left == |ts| - k
  {
    LevelReadsAhead(0, ts, ts);
    k := Accepted(ts, ParseLevel(0, ts));
    NothingGoesOn(ts, k);
    if ParseLevel(0, ts).Ok? {
      TrailsAt(ts, k);
    } else {
      var t := LevelCompletes(0, ts);
      MissesAt(ts, t, ParseLevel(0, ts).error, k);
      assert Head(ts[k..]) == ts[k];
    }
  }

  /** There is only one such token. */
  lemma {:induction false} OneFirstWrongToken(ts: seq<Kind>, j: nat, k: nat)
    requires k < |ts| && j < |ts| && Begins(ts[..j]) && !Begins(ts[..j + 1])
    requires Begins(ts[..k]) && !Begins(ts[..k + 1])
    ensures j == k
  {
    if j < k {
      BeginsEarlier(ts, j, k);
    } else if k < j {
      BeginsEarlier(ts, k, j);
    }
  }

  lemma {:induction false} BeginsEarlier(ts: seq<Kind>, j: nat, k: nat)
    requires j < k <= |ts| && Begins(ts[..k])
    ensures Begins(ts[..j + 1])
  {
    var t :| Grammatical(t) && ts[..k] <= Yield(t) + [Eof];
    assert ts[..j + 1] == ts[..k][..j + 1];
    assert ts[..j + 1] <= Yield(t) + [Eof];
  }

  /** The error that is reported names the place of that token. */
  lemma {:induction false} ErrorIsAtFirstWrongToken(ts: seq<Token>) returns (k: nat, complaint: Complaint)
    requires EndsInEof(Kinds(ts)) && ParseTokens(ts).Err?
    ensures k < |ts| && FailsAt(Kinds(ts), k, complaint)
    ensures ParseTokens(ts) == Err(SyntaxError(Misparsed(complaint), ts[k].pos))
  {
    k := FailsAtFirstWrongToken(Kinds(ts));
    complaint := ParseAll(Kinds(ts)).error.complaint;
  }
}
