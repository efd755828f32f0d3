/**
 * The code exactly as written, where it departs from what it evidently
 * intends, next to an input that shows the difference.  The rest of the model
 * uses the intended behaviour; each lemma below names the member that does.
 */
module AsWritten {
  import opened Wrappers
  import opened Tokens
  import opened Errors
  import opened Config
  import opened Chars
  import opened Lex
  import opened Ast
  import opened Values
  import opened Scope
  import opened Evaluator
  import Grammar
  import GrammarFacts

  // ---------------------------------------------------------------- lexer

  /** `peek` as written: the index is clamped to the last character, so at the last
      character it returns that character again instead of signalling the end. */
  function Peek(s: string, p: nat): (c: char)
    requires |s| > 0
    ensures p + 1 < |s| ==> c == s[p + 1]
    ensures p + 1 >= |s| ==> c == s[|s| - 1]
  {
    s[if p + 1 < |s| then p + 1 else |s| - 1]
  }

  /** The test that starts `skip_comment` as written: current character and peek both `>`. */
  predicate CommentStarts(s: string, p: nat)
    ensures CommentStarts(s, p) <==> CommentAt(s, p) || (p + 1 == |s| && s[p] == '>')
  {
    p < |s| && s[p] == '>' && Peek(s, p) == '>'
  }

  /** A single `>` at the very end of the input passes that test, although a comment
      needs two (`Lex.CommentAt`). */
  lemma TrailingGreaterStartsComment()
    ensures CommentStarts("1 >", 2) && !CommentAt("1 >", 2)
  {
  }

  /** The comment loop as written, `while current_char != "\n": advance()`, given `fuel`
      iterations: the position of the newline, or `None` while still looping.  Past the
      end `current_char` is `None`, which is never a newline. */
  function CommentLineEnd(s: string, p: nat, fuel: nat): (r: Option<nat>)
    ensures r.Some? ==> p <= r.value < |s| && s[r.value] == '\n'
    decreases fuel
  {
    if fuel == 0 then None
    else if CharAt(s, p) == Some('\n') then Some(p)
    else CommentLineEnd(s, p + 1, fuel - 1)
  }

  /** A comment with no newline after it never ends, whatever number of iterations is
      allowed: the source loops forever.  `Lex.SkipComments` stops at the end of input
      instead (`LexFacts.SkipCommentsStops`). */
  lemma {:induction false} UnterminatedCommentLoops(s: string, p: nat, fuel: nat)
    requires forall i :: p <= i < |s| ==> s[i] != '\n'
    ensures CommentLineEnd(s, p, fuel) == None
    decreases fuel
  {
    if fuel > 0 {
      assert CharAt(s, p) != Some('\n');
      UnterminatedCommentLoops(s, p + 1, fuel - 1);
    }
  }

  /** The token dispatch of `get_next_token` as written.  The four two-character cases
      call `advance_token` without `self.`, which Python reports as an undefined name;
      with the clamped `peek`, a `=` as the last character already matches `==`. */
  function TokenAt(s: string, q: nat): (r: Result<Lexed>)
    requires q < |s|
    ensures r.Err? && r.error == NameNotDefined("advance_token") <==>
      !IsDigit(s[q]) && s[q] != '"' && !IsAlnum(s[q]) && TwoCharKind(s[q], Peek(s, q)).Some?
  {
    var c := s[q];
    if IsDigit(c) || c == '"' || IsAlnum(c) then Lex.TokenAt(s, q)
    else if TwoCharKind(c, Peek(s, q)).Some? then Err(NameNotDefined("advance_token"))
    else PunctuationToken(c, q)
  }

  /** `a==b`: the lexer as written stops at `==`; `Lex.TokenAt` yields one `EqualsEquals`
      token spanning both characters. */
  lemma DoubleEqualsCrashes()
    ensures TokenAt("a==b", 1) == Err(NameNotDefined("advance_token"))
    ensures Lex.TokenAt("a==b", 1) == Ok(Lexed(Token(EqualsEquals, "=="), 3))
  {
    assert "a==b"[1..3] == "==";
  }

  /** `x =` at the end of input: the clamped `peek` turns the final `=` into `==`. */
  lemma FinalEqualsCrashes()
    ensures TokenAt("x =", 2) == Err(NameNotDefined("advance_token"))
    ensures Lex.TokenAt("x =", 2) == Ok(Lexed(Token(Equals, "="), 3))
  {
    assert PunctuationKind('=') == Some(Equals);
  }

  // ---------------------------------------------------------------- evaluator

  /** `visit_boolean` as written: the parser stores the whole token in the node, and a
      token object never compares equal to a string, so the result is always false. */
  function BooleanValue(stored: Token, spelling: string): (v: Value)
    ensures v.BoolV?
  {
    BoolV(false)
  }

  /** `Αληθές` evaluates to false as written and to true in `Evaluator.Eval`. */
  lemma TrueLiteralReadsFalse(reg: Registry, fuel: nat, env: Env)
    ensures BooleanValue(Token(Bool, TrueWord), TrueWord) == BoolV(false)
    ensures Eval(reg, fuel, Boolean(TrueWord), env).out == Normal(BoolV(true))
  {
  }

  /** `visit_variable_assignment` as written: after the lookup, the right-hand side and
      the type check, the new value goes through `insert`, which refuses a name that is
      already in the store. */
  function Assign(reg: Registry, fuel: nat, name: string, e: Node, env: Env): (r: Exec)
    ensures Extends(env, r.env)
  {
    match Lookup(env, name)
    case Err(err) => Exec(Raised(err), env)
    case Ok(prior) =>
      var x := Eval(reg, fuel, e, env);
      if !x.out.Normal? then x
      else if TypeOf(prior) != TypeOf(x.out.value) then Exec(Raised(WrongType(name)), x.env)
      else
        match Define(x.env, name, x.out.value)
        case Err(err) => Exec(Raised(err), x.env)
        case Ok(env') => Exec(Normal(NoneV), env')
  }

  /** No assignment ever succeeds as written: the name being assigned is always already
      present.  `Evaluator.EvalAssignment` replaces the binding instead
      (`EvalFacts.AssignmentReplaces`). */
  lemma AssignmentAlwaysFails(reg: Registry, fuel: nat, name: string, e: Node, env: Env)
    ensures !Assign(reg, fuel, name, e, env).out.Normal?
    ensures var x := Eval(reg, fuel, e, env);
      Lookup(env, name).Ok? && x.out.Normal? && TypeOf(x.out.value) == TypeOf(env[name]) ==>
        Assign(reg, fuel, name, e, env) == Exec(Raised(AlreadyDefined(name)), x.env)
  {
    if Lookup(env, name).Ok? {
      var x := Eval(reg, fuel, e, env);
      assert name in x.env;
    }
  }

  /** The operator dispatch of `visit_binary_operation` as written: it has no case for
      `==`, so the match falls through and the result is `None`. */
  function ApplyBinary(op: TokenType, left: Value, right: Value): (r: Result<Value>)
    ensures op != EqualsEquals ==> r == Evaluator.ApplyBinary(op, left, right)
  {
    if op == EqualsEquals then Ok(NoneV) else Evaluator.ApplyBinary(op, left, right)
  }

  /** `1 == 1` is `None`, which is falsy, so a condition `1 == 1` never holds as written;
      `Evaluator.ApplyBinary` gives `True` (`EvalFacts.EqualityOperators`). */
  lemma EqualityIsNone()
    ensures ApplyBinary(EqualsEquals, IntV(1), IntV(1)) == Ok(NoneV)
    ensures !Truthy(ApplyBinary(EqualsEquals, IntV(1), IntV(1)).value)
    ensures Evaluator.ApplyBinary(EqualsEquals, IntV(1), IntV(1)) == Ok(BoolV(true))
  {
  }

  /** One round of the statement loop of `parse_compound`/`parse_block` as written, right after a
      `}` when the next token starts no statement (`εάν (x) { };`): no `;` is eaten, the
      statement is an empty `NOOP` and the parser state is the one it started from, so the
      next round is the same round and the loop never ends. The model reports
      `ParserLoops` there instead (`GrammarFacts.NoProgressAfterCurly`). */
  lemma LoopRoundAfterCurlyIsIdle(s: string, st: Grammar.PState)
    requires Grammar.Sound(s, st) && st.prev.kind == RightCurly
    requires !Grammar.StartsStatement(st.cur.kind)
    ensures Grammar.Separator(s, st) == Grammar.Done(false, st)
    ensures Grammar.ParseStatement(s, st) == Grammar.Done(NoOp, st)
  {
  }

  /** `parse_return` as written: the keyword, then always an expression. */
  function ParseReturn(s: string, st: Grammar.PState): (r: Grammar.Parsed<Node>)
    requires Grammar.Sound(s, st)
    ensures var k := Grammar.Eat(s, st, TokenType.Return);
      k.Failed? ==> r == Grammar.Failed(k.error)
    ensures r.Done? ==> r.value.Return? && Grammar.Sound(s, r.st)
  {
    match Grammar.Eat(s, st, TokenType.Return)
    case Failed(e) => Grammar.Failed(e)
    case Done(_, st1) =>
      match Grammar.ParseExpression(s, st1)
      case Failed(e) => Grammar.Failed(e)
      case Done(value, st2) => Grammar.Done(Node.Return(value), st2)
  }

  /** As written, `return;` swallows its `;`: `factor` eats it and gives Python's `None`,
      so the node holds `None` instead of `Return`'s `NOOP` default, and a statement after
      it (`εάν (1) { επέστρεψε; x = 1 }`) is then refused for want of a `;`. */
  lemma ReturnSwallowsSemicolon(s: string, st: Grammar.PState, semi: Lexed, after: Lexed)
    requires Grammar.Sound(s, st) && st.cur.kind == TokenType.Return
    requires NextToken(s, st.pos) == Ok(semi) && semi.token.kind == Semicolon
    requires NextToken(s, semi.next) == Ok(after)
    requires !InTermTier(after.token.kind) && !InExpressionTier(after.token.kind)
    ensures ParseReturn(s, st)
      == Grammar.Done(Node.Return(Missing), Grammar.PState(after.next, after.token, semi.token))
    ensures after.token.kind != Semicolon ==>
      Grammar.Separator(s, Grammar.PState(after.next, after.token, semi.token))
        == Grammar.Failed(WrongToken(Semicolon, after.token.kind))
  {
    var st1 := Grammar.PState(semi.next, semi.token, st.cur);
    var st2 := Grammar.PState(after.next, after.token, semi.token);
    assert Grammar.Eat(s, st, TokenType.Return) == Grammar.Done(st.cur, st1);
    GrammarFacts.FactorFallThrough(s, st1, after);
    SwallowedExpression(s, st1, st2);
  }

  lemma SwallowedExpression(s: string, st1: Grammar.PState, st2: Grammar.PState)
    requires Grammar.Sound(s, st1) && Grammar.Factor(s, st1) == Grammar.Done(Missing, st2)
    requires !InTermTier(st2.cur.kind) && !InExpressionTier(st2.cur.kind)
    ensures Grammar.ParseExpression(s, st1) == Grammar.Done(Missing, st2)
  {
    assert Grammar.ParseTerm(s, st1) == Grammar.Done(Missing, st2);
  }
}
