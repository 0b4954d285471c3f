/** The tokenizer of the expression language: its specification, and sources that spell given tokens. */
module ExpressionTokens {
  import opened Wrappers
  import opened Expressions
  import opened ExpressionGrammar

  datatype Token = Token(kind: Kind, pos: nat)

  datatype SyntaxProblem = UnterminatedString | UnexpectedCharacter | Misparsed(complaint: Complaint)

  datatype SyntaxError = SyntaxError(problem: SyntaxProblem, position: nat)

  type Lexed = Result<seq<Token>, SyntaxError>

  predicate IsSpace(c: char) {
    c == ' ' || c == '\t' || c == '\n' || c == '\r'
  }

  predicate IsDigit(c: char) {
    '0' <= c <= '9'
  }

  predicate IsLetter(c: char) {
    'A' <= c <= 'Z' || 'a' <= c <= 'z' || c == '_'
  }

  predicate InNumber(c: char) {
    IsDigit(c) || c == '.'
  }

  predicate InIdent(c: char) {
    IsLetter(c) || IsDigit(c) || c == '.'
  }

  predicate InString(c: char) {
    c != '\''
  }

  predicate All(s: string, p: char -> bool) {
    forall i :: 0 <= i < |s| ==> p(s[i])
  }

  /** The length of the longest prefix of such characters. */
  function Span(s: string, p: char -> bool): (n: nat)
    ensures n <= |s| && All(s[..n], p) && (n < |s| ==> !p(s[n]))
  {
    if s == "" || !p(s[0]) then 0
    else
      var n := 1 + Span(s[1..], p);
      assert s[..n] == [s[0]] + s[1..][..n - 1];
      n
  }

  /** The token at the start of what is left, and its length with any quotes. */
  function FirstToken(s: string): (r: Result<(Kind, nat), SyntaxProblem>)
    requires s != ""
    ensures r.Ok? ==> 1 <= r.value.1 <= |s|
  {
    if s[0] == '(' then Ok((LParen, 1))
    else if s[0] == ')' then Ok((RParen, 1))
    else if s[0] == '\'' then
      var n := Span(s[1..], InString);
      if 1 + n >= |s| then Err(UnterminatedString) else Ok((StringLit(s[1..1 + n]), n + 2))
    else if "==" <= s then Ok((Operator(Eq), 2))
    else if "!=" <= s then Ok((Operator(Neq), 2))
    else if "&&" <= s then Ok((Operator(And), 2))
    else if "||" <= s then Ok((Operator(Or), 2))
    else if s[0] == '!' then Ok((Bang, 1))
    else if IsDigit(s[0]) then Ok((NumberLit(s[..Span(s, InNumber)]), Span(s, InNumber)))
    else if IsLetter(s[0]) then Ok((Ident(s[..Span(s, InIdent)]), Span(s, InIdent)))
    else Err(UnexpectedCharacter)
  }

  /** The tokens of what is left of a source from a position on. */
  function Lex(s: string, at: nat): Lexed
    decreases |s|
  {
    if s == "" then Ok([Token(Eof, at)])
    else if IsSpace(s[0]) then Lex(s[1..], at + 1)
    else
      match FirstToken(s)
      case Err(problem) => Err(SyntaxError(problem, at))
      case Ok((kind, n)) =>
        var rest :- Lex(s[n..], at + n);
        Ok([Token(kind, at)] + rest)
  }

  function Kinds(ts: seq<Token>): (ks: seq<Kind>)
    ensures |ks| == |ts| && forall i :: 0 <= i < |ts| ==> ks[i] == ts[i].kind
  {
    if ts == [] then [] else [ts[0].kind] + Kinds(ts[1..])
  }

  // -------------------------------------------------- what tokens can be spelt

  predicate Spellable(k: Kind) {
    match k
    case StringLit(text) => All(text, InString)
    case NumberLit(text) => text != "" && IsDigit(text[0]) && All(text, InNumber)
    case Ident(text) => text != "" && IsLetter(text[0]) && All(text, InIdent)
    case Eof => false
    case _ => true
  }

  predicate AllSpellable(ks: seq<Kind>) {
    forall i :: 0 <= i < |ks| ==> Spellable(ks[i])
  }

  function Spelling(k: Kind): string
    requires Spellable(k)
  {
    match k
    case StringLit(text) => "'" + text + "'"
    case NumberLit(text) => text
    case Ident(text) => text
    case Operator(op) =>
      (match op
       case Eq => "=="
       case Neq => "!="
       case And => "&&"
       case Or => "||")
    case Bang => "!"
    case LParen => "("
    case RParen => ")"
  }

  /** A source with a blank behind every token. */
  function Spell(ks: seq<Kind>): string
    requires AllSpellable(ks)
  {
    if ks == [] then "" else Spelling(ks[0]) + " " + Spell(ks[1..])
  }

  lemma {:induction false} SpanStopsAt(text: string, c: char, rest: string, p: char -> bool)
    requires All(text, p) && !p(c)
    ensures Span(text + [c] + rest, p) == |text|
  {
    var s := text + [c] + rest;
    if text != "" {
      SpanStopsAt(text[1..], c, rest, p);
      assert s[1..] == text[1..] + [c] + rest;
    }
  }

  predicate StartsWith(s: string, k: Kind, n: nat) {
    s != "" && !IsSpace(s[0]) && FirstToken(s) == Ok((k, n))
  }

  lemma {:induction false} QuotedIsFirst(text: string, rest: string)
    requires All(text, InString)
    ensures StartsWith("'" + text + "'" + rest, StringLit(text), |text| + 2)
  {
    var s := "'" + text + "'" + rest;
    assert s[1..] == text + "'" + rest;
    SpanStopsAt(text, '\'', rest, InString);
    assert s[1..1 + |text|] == text;
  }

  lemma {:induction false} NumberIsFirst(text: string, rest: string)
    requires Spellable(NumberLit(text))
    ensures StartsWith(text + " " + rest, NumberLit(text), |text|)
  {
    var s := text + " " + rest;
    SpanStopsAt(text, ' ', rest, InNumber);
    assert s[..|text|] == text && s[0] == text[0];
  }

  lemma {:induction false} IdentIsFirst(text: string, rest: string)
    requires Spellable(Ident(text))
    ensures StartsWith(text + " " + rest, Ident(text), |text|)
  {
    var s := text + " " + rest;
    SpanStopsAt(text, ' ', rest, InIdent);
    assert s[..|text|] == text && s[0] == text[0];
  }

  lemma {:induction false} SymbolIsFirst(k: Kind, rest: string)
    requires k.Operator? || k.Bang? || k.LParen? || k.RParen?
    ensures StartsWith(Spelling(k) + " " + rest, k, |Spelling(k)|)
  {
    var s := Spelling(k) + " " + rest;
    if k.Operator? {
      assert s[..2] == Spelling(k);
    } else {
      assert s[1] == ' ';
    }
  }

  lemma {:induction false} SpellingIsFirst(k: Kind, rest: string)
    requires Spellable(k)
    ensures StartsWith(Spelling(k) + " " + rest, k, |Spelling(k)|)
  {
    var s := Spelling(k) + " " + rest;
    match k
    case StringLit(text) =>
      QuotedIsFirst(text, " " + rest);
      assert s == "'" + text + "'" + (" " + rest);
    case NumberLit(text) => NumberIsFirst(text, rest);
    case Ident(text) => IdentIsFirst(text, rest);
    case _ => SymbolIsFirst(k, rest);
  }

  lemma {:induction false} LexPastBlank(s: string, k: Kind, n: nat, rest: string, at: nat)
    requires StartsWith(s, k, n) && n < |s| && s[n..] == " " + rest && Lex(rest, at + n + 1).Ok?
    ensures Lex(s, at) == Ok([Token(k, at)] + Lex(rest, at + n + 1).value)
  {
    assert s[n..] != "" && IsSpace(s[n..][0]) && s[n..][1..] == rest;
    assert Lex(s[n..], at + n) == Lex(rest, at + n + 1);
  }

  lemma {:induction false} SpellTail(ks: seq<Kind>)
    requires AllSpellable(ks) && ks != []
    ensures |Spelling(ks[0])| < |Spell(ks)| && Spell(ks)[|Spelling(ks[0])|..] == " " + Spell(ks[1..])
  {
  }

  /** Tokenizing a spelling gives back the tokens spelt. */
  lemma {:induction false} SpellingIsTokenized(ks: seq<Kind>, at: nat)
    requires AllSpellable(ks)
    ensures Lex(Spell(ks), at).Ok? && Kinds(Lex(Spell(ks), at).value) == ks + [Eof]
  {
    if ks != [] {
      var n := |Spelling(ks[0])|;
      var rest := Spell(ks[1..]);
      SpellingIsFirst(ks[0], rest);
      SpellingIsTokenized(ks[1..], at + n + 1);
      SpellTail(ks);
      LexPastBlank(Spell(ks), ks[0], n, rest, at);
    }
  }

  lemma {:induction false} FirstTokenIsSpellable(s: string)
    requires s != "" && FirstToken(s).Ok?
    ensures Spellable(FirstToken(s).value.0)
  {
    assert s[1..1 + Span(s[1..], InString)] == s[1..][..Span(s[1..], InString)];
    assert IsDigit(s[0]) ==> Span(s, InNumber) > 0;
    assert IsLetter(s[0]) ==> Span(s, InIdent) > 0;
  }

  /** Each token starts behind the one before, and the end is the last and only there. */
  predicate InPlace(ts: seq<Token>, at: nat, end: nat) {
    && ts != [] && ts[|ts| - 1] == Token(Eof, end) && at <= ts[0].pos
    && (forall i :: 0 <= i < |ts| - 1 ==> ts[i].pos < ts[i + 1].pos)
    && (forall i :: 0 <= i < |ts| - 1 ==> Spellable(ts[i].kind))
  }

  lemma {:induction false} InPlaceBehind(first: Token, rest: seq<Token>, at: nat, end: nat)
    requires InPlace(rest, first.pos + 1, end) && Spellable(first.kind) && at <= first.pos
    ensures InPlace([first] + rest, at, end)
  {
    var ts := [first] + rest;
    assert forall i :: 1 <= i < |ts| ==> ts[i] == rest[i - 1];
  }

  lemma {:induction false} LexedAreInPlace(s: string, at: nat)
    requires Lex(s, at).Ok?
    ensures InPlace(Lex(s, at).value, at, at + |s|)
    decreases |s|
  {
    if s != "" {
      if IsSpace(s[0]) {
        LexedAreInPlace(s[1..], at + 1);
      } else {
        var (kind, n) := FirstToken(s).value;
        FirstTokenIsSpellable(s);
        LexedAreInPlace(s[n..], at + n);
        InPlaceBehind(Token(kind, at), Lex(s[n..], at + n).value, at, at + |s|);
      }
    }
  }

  // --------------------------------------------------- what a source consists of

  /** A token is not cut short: what follows it would not go on with it. */
  predicate IsWhole(s: string, k: Kind, n: nat) {
    n < |s| ==>
      match k
      case NumberLit(_) => !InNumber(s[n])
      case Ident(_) => !InIdent(s[n])
      case Bang => s[n] != '='
      case _ => true
  }

  predicate BeginsWith(s: string, k: Kind) {
    Spellable(k) && Spelling(k) <= s && IsWhole(s, k, |Spelling(k)|)
  }

  lemma {:induction false} SpanIsOf(s: string, n: nat, p: char -> bool)
    requires n <= |s| && All(s[..n], p) && (n < |s| ==> !p(s[n]))
    ensures Span(s, p) == n
  {
    if n > 0 {
      assert s[..n][0] == s[0] && s[..n][1..] == s[1..][..n - 1];
      SpanIsOf(s[1..], n - 1, p);
    }
  }

  lemma {:induction false} FirstTokenBegins(s: string)
    requires s != "" && FirstToken(s).Ok?
    ensures var (k, n) := FirstToken(s).value; BeginsWith(s, k) && n == |Spelling(k)|
  {
    FirstTokenIsSpellable(s);
    var (k, n) := FirstToken(s).value;
    if s[0] == '\'' {
      var m := Span(s[1..], InString);
      assert s[1..][m] == s[1 + m];
      assert "'" + s[1..1 + m] + "'" == s[..m + 2];
    }
  }

  lemma {:induction false} QuotedBegins(s: string, text: string)
    requires BeginsWith(s, StringLit(text))
    ensures FirstToken(s) == Ok((StringLit(text), |text| + 2))
  {
    var n := |text|;
    assert s[..n + 2] == "'" + text + "'";
    assert s[0] == '\'' && s[n + 1] == '\'' && s[1..][n] == s[n + 1];
    assert s[1..][..n] == s[..n + 2][1..n + 1] == text;
    SpanIsOf(s[1..], n, InString);
    assert s[1..1 + n] == text;
  }

  lemma {:induction false} WordBegins(s: string, k: Kind)
    requires BeginsWith(s, k) && (k.NumberLit? || k.Ident?)
    ensures FirstToken(s) == Ok((k, |Spelling(k)|))
  {
    var n := |Spelling(k)|;
    assert s[..n] == Spelling(k) && s[0] == Spelling(k)[0];
    SpanIsOf(s, n, if k.NumberLit? then InNumber else InIdent);
  }

  /** What a source begins with is a token exactly if it spells one whole, and then there is but one. */
  lemma {:induction false} FirstTokenIff(s: string, k: Kind, n: nat)
    requires s != ""
    ensures FirstToken(s) == Ok((k, n)) <==> BeginsWith(s, k) && n == |Spelling(k)|
  {
    if BeginsWith(s, k) {
      assert s[..|Spelling(k)|] == Spelling(k);
      match k
      case StringLit(text) => QuotedBegins(s, text);
      case NumberLit(_) => WordBegins(s, k);
      case Ident(_) => WordBegins(s, k);
      case _ =>
    }
    if FirstToken(s).Ok? {
      FirstTokenBegins(s);
    }
  }

  predicate Blank(source: string, i: nat, j: nat) {
    i <= j <= |source| && forall k :: i <= k < j ==> IsSpace(source[k])
  }

  /** From a position on the source consists of these tokens, blanks before and between, and its end. */
  predicate ConsistsOf(source: string, i: nat, ts: seq<Token>)
    decreases |ts|
  {
    && ts != [] && Blank(source, i, ts[0].pos)
    && if |ts| == 1 then ts[0] == Token(Eof, |source|)
       else
         BeginsWith(source[ts[0].pos..], ts[0].kind) && ConsistsOf(source, ts[0].pos + |Spelling(ts[0].kind)|, ts[1..])
  }

  lemma {:induction false} NoTokenIsBlank(s: string, k: Kind)
    requires BeginsWith(s, k)
    ensures s != "" && !IsSpace(s[0])
  {
    assert s[..|Spelling(k)|] == Spelling(k);
    assert s[0] == Spelling(k)[0];
  }

  lemma {:induction false} BlankIsPassed(source: string, i: nat, ts: seq<Token>)
    requires i < |source|
    ensures IsSpace(source[i]) ==> (ConsistsOf(source, i, ts) <==> ConsistsOf(source, i + 1, ts))
    ensures !IsSpace(source[i]) && ConsistsOf(source, i, ts) ==> |ts| > 1 && ts[0].pos == i
  {
    if ConsistsOf(source, i, ts) && |ts| > 1 {
      var s := source[ts[0].pos..];
      NoTokenIsBlank(s, ts[0].kind);
      assert s[0] == source[ts[0].pos];
    }
  }

  lemma {:induction false} BlankTokens(source: string, i: nat, ts: seq<Token>)
    requires i < |source| && IsSpace(source[i])
    requires Lex(source[i + 1..], i + 1) == Ok(ts) <==> ConsistsOf(source, i + 1, ts)
    ensures Lex(source[i..], i) == Ok(ts) <==> ConsistsOf(source, i, ts)
  {
    assert source[i..][1..] == source[i + 1..];
    BlankIsPassed(source, i, ts);
  }

  lemma {:induction false} TokenTokens(source: string, i: nat, k: Kind, n: nat, ts: seq<Token>)
    requires i < |source| && !IsSpace(source[i]) && FirstToken(source[i..]) == Ok((k, n)) && i + n <= |source|
    requires ts != [] ==> (Lex(source[i + n..], i + n) == Ok(ts[1..]) <==> ConsistsOf(source, i + n, ts[1..]))
    ensures Lex(source[i..], i) == Ok(ts) <==> ConsistsOf(source, i, ts)
  {
    FirstTokenIff(source[i..], k, n);
    assert source[i..][n..] == source[i + n..];
    TokenIsPassed(source, i, k, n, ts);
    LexPassesToken(source[i..], i, k, n, ts);
  }

  lemma {:induction false} NoTokens(source: string, i: nat, ts: seq<Token>)
    requires i < |source| && !IsSpace(source[i]) && FirstToken(source[i..]).Err?
    ensures Lex(source[i..], i) != Ok(ts) && !ConsistsOf(source, i, ts)
  {
    BlankIsPassed(source, i, ts);
    if ConsistsOf(source, i, ts) {
      FirstTokenIff(source[i..], ts[0].kind, |Spelling(ts[0].kind)|);
    }
  }

  /** Tokenizing answers with tokens exactly if the source consists of them. */
  lemma {:induction false} TokensIffConsistsOf(source: string, i: nat, ts: seq<Token>)
    requires i <= |source|
    ensures Lex(source[i..], i) == Ok(ts) <==> ConsistsOf(source, i, ts)
    decreases |source| - i
  {
    if i == |source| {
      EndConsistsOf(source, ts);
    } else if IsSpace(source[i]) {
      TokensIffConsistsOf(source, i + 1, ts);
      BlankTokens(source, i, ts);
    } else if FirstToken(source[i..]).Ok? {
      var (k, n) := FirstToken(source[i..]).value;
      if ts != [] {
        TokensIffConsistsOf(source, i + n, ts[1..]);
      }
      TokenTokens(source, i, k, n, ts);
    } else {
      NoTokens(source, i, ts);
    }
  }

  lemma {:induction false} EndConsistsOf(source: string, ts: seq<Token>)
    ensures ConsistsOf(source, |source|, ts) <==> ts == [Token(Eof, |source|)]
  {
    if ConsistsOf(source, |source|, ts) && |ts| > 1 {
      NoTokenIsBlank(source[ts[0].pos..], ts[0].kind);
    }
  }

  lemma {:induction false} TokenIsPassed(source: string, i: nat, k: Kind, n: nat, ts: seq<Token>)
    requires i < |source| && !IsSpace(source[i]) && BeginsWith(source[i..], k) && n == |Spelling(k)|
    ensures ConsistsOf(source, i, ts) <==> |ts| > 1 && ts[0] == Token(k, i) && ConsistsOf(source, i + n, ts[1..])
  {
    FirstTokenIff(source[i..], k, n);
    if ConsistsOf(source, i, ts) {
      BlankIsPassed(source, i, ts);
      FirstTokenIff(source[i..], ts[0].kind, |Spelling(ts[0].kind)|);
    }
  }

  lemma {:induction false} LexPassesToken(s: string, i: nat, k: Kind, n: nat, ts: seq<Token>)
    requires s != "" && !IsSpace(s[0]) && FirstToken(s) == Ok((k, n))
    ensures Lex(s, i) == Ok(ts) <==> |ts| > 1 && ts[0] == Token(k, i) && Lex(s[n..], i + n) == Ok(ts[1..])
  {
    LexedSome(s[n..], i + n);
    if |ts| > 1 && ts[0] == Token(k, i) {
      assert ts == [ts[0]] + ts[1..];
    }
  }

  lemma {:induction false} LexedSome(s: string, i: nat)
    ensures Lex(s, i).Ok? ==> Lex(s, i).value != []
  {
    if Lex(s, i).Ok? {
      LexedAreInPlace(s, i);
    }
  }

  /** A place where no token begins: an open quote, or a character that has no place. */
  ghost predicate NothingBegins(source: string, e: SyntaxError) {
    && e.position < |source| && !IsSpace(source[e.position])
    && (forall k :: !BeginsWith(source[e.position..], k))
    && e.problem == if source[e.position] == '\'' then UnterminatedString else UnexpectedCharacter
  }

  lemma {:induction false} RejectedHere(source: string, i: nat)
    requires i < |source| && !IsSpace(source[i]) && FirstToken(source[i..]).Err?
    ensures NothingBegins(source, SyntaxError(FirstToken(source[i..]).error, i))
  {
    var s := source[i..];
    forall k
      ensures !BeginsWith(s, k)
    {
      if BeginsWith(s, k) {
        FirstTokenIff(s, k, |Spelling(k)|);
      }
    }
  }

  /** Tokenizing fails at such a place. */
  lemma {:induction false} RejectedWhereNothingBegins(source: string, i: nat)
    requires i <= |source| && Lex(source[i..], i).Err?
    ensures NothingBegins(source, Lex(source[i..], i).error) && Lex(source[i..], i).error.position >= i
    decreases |source| - i
  {
    var s := source[i..];
    if IsSpace(source[i]) {
      assert s[1..] == source[i + 1..];
      RejectedWhereNothingBegins(source, i + 1);
    } else if FirstToken(s).Ok? {
      var n := FirstToken(s).value.1;
      assert s[n..] == source[i + n..];
      RejectedWhereNothingBegins(source, i + n);
    } else {
      RejectedHere(source, i);
    }
  }
}
