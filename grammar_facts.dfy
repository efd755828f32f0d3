/**
 * Properties of the grammar (Ermis/parser.py): the separator rule, `NOOP`
 * statements, the two operator tiers, the `else if` chain and the corner
 * cases of `factor` and `collect_parameters`.
 */
module GrammarFacts {
  import opened Wrappers
  import opened Tokens
  import opened Errors
  import opened Lex
  import opened Ast
  import opened Grammar

  /** Between two statements of a program, a missing `;` is a `WrongToken` error unless
      the previous token was `}`. */
  lemma MissingSemicolonRejected(s: string, acc: seq<Node>, st: PState)
    requires Sound(s, st)
    requires st.cur.kind != EOF && st.cur.kind != Semicolon && st.prev.kind != RightCurly
    ensures CompoundRest(s, acc, st) == Failed(WrongToken(Semicolon, st.cur.kind))
    ensures st.cur.kind != RightCurly ==>
      BlockRest(s, acc, st) == Failed(WrongToken(Semicolon, st.cur.kind))
  {
  }

  /** After a `}` the next statement follows without a separator. */
  lemma NoSeparatorAfterCurly(s: string, acc: seq<Node>, st: PState, n: Node, st1: PState)
    requires Sound(s, st) && st.cur.kind != EOF && st.prev.kind == RightCurly
    requires StartsStatement(st.cur.kind) && ParseStatement(s, st) == Done(n, st1)
    ensures CompoundRest(s, acc, st) == CompoundRest(s, acc + [n], st1)
  {
  }

  /** After a `}`, a token that starts no statement (and does not end the program or the
      block) makes the statement loop spin without consuming anything. */
  lemma NoProgressAfterCurly(s: string, acc: seq<Node>, st: PState)
    requires Sound(s, st) && st.prev.kind == RightCurly && !StartsStatement(st.cur.kind)
    ensures st.cur.kind != EOF ==> CompoundRest(s, acc, st) == Failed(ParserLoops)
    ensures st.cur.kind != RightCurly ==> BlockRest(s, acc, st) == Failed(ParserLoops)
  {
  }

  /** `return;`, `return }` and a `return` at the end of input parse to a return holding
      `NOOP`; the token after the keyword is left for the statement loop. */
  lemma ReturnWithoutValue(s: string, st: PState, next: Lexed)
    requires Sound(s, st) && st.cur.kind == TokenType.Return
    requires NextToken(s, st.pos) == Ok(next)
    requires next.token.kind == Semicolon || next.token.kind == RightCurly || next.token.kind == EOF
    ensures ParseStatement(s, st) == Done(Node.Return(NoOp), PState(next.next, next.token, st.cur))
  {
    assert Eat(s, st, TokenType.Return) == Done(st.cur, PState(next.next, next.token, st.cur));
  }

  /** `{}` parses to a block holding a single `NOOP`. */
  lemma EmptyBlock(s: string, st: PState, close: Lexed, after: Lexed)
    requires Sound(s, st) && st.cur.kind == LeftCurly
    requires NextToken(s, st.pos) == Ok(close) && close.token.kind == RightCurly
    requires NextToken(s, close.next) == Ok(after)
    ensures ParseBlock(s, st) == Done(Compound([NoOp]), PState(after.next, after.token, close.token))
  {
    var st1 := PState(close.next, close.token, st.cur);
    assert Eat(s, st, LeftCurly) == Done(st.cur, st1);
    assert ParseStatement(s, st1) == Done(NoOp, st1);
  }

  /** `()` gives the empty parameter list. */
  lemma EmptyParameters(s: string, st: PState, close: Lexed, after: Lexed)
    requires Sound(s, st) && st.cur.kind == LeftParen
    requires NextToken(s, st.pos) == Ok(close) && close.token.kind == RightParen
    requires NextToken(s, close.next) == Ok(after)
    ensures CollectParameters(s, st) == Done([], PState(after.next, after.token, close.token))
  {
  }

  /** Parameters come out in source order: the first expression, then one per comma. */
  lemma ParametersInOrder(s: string, st: PState, st0: PState, first: Node, st1: PState)
    requires Sound(s, st) && st.cur.kind == LeftParen
    requires Eat(s, st, LeftParen) == Done(st.cur, st0) && st0.cur.kind != RightParen
    requires ParseExpression(s, st0) == Done(first, st1)
    ensures CollectParameters(s, st) == ParametersRest(s, [first], st1)
  {
  }

  /** `factor` eats exactly one token before it dispatches; a kind it has no case for
      gives Python's `None`. */
  lemma FactorFallThrough(s: string, st: PState, next: Lexed)
    requires Sound(s, st)
    requires st.cur.kind !in {Identifier, Plus, Minus, LeftParen, Integer, Float, Bool, String}
    requires NextToken(s, st.pos) == Ok(next)
    ensures Factor(s, st) == Done(Missing, PState(next.next, next.token, st.cur))
  {
  }

  /** Operators of the expression tier group to the left: `a - b - c` is `(a - b) - c`. */
  lemma ExpressionLeftAssociative(s: string, st: PState, a: Node, b: Node, c: Node,
                                  st1: PState, st2: PState, st3: PState, st4: PState, st5: PState)
    requires Sound(s, st)
    requires ParseTerm(s, st) == Done(a, st1) && InExpressionTier(st1.cur.kind)
    requires Eat(s, st1, st1.cur.kind).Done? && Eat(s, st1, st1.cur.kind).st == st2
    requires ParseTerm(s, st2) == Done(b, st3) && InExpressionTier(st3.cur.kind)
    requires Eat(s, st3, st3.cur.kind).Done? && Eat(s, st3, st3.cur.kind).st == st4
    requires ParseTerm(s, st4) == Done(c, st5) && !InExpressionTier(st5.cur.kind)
    ensures ParseExpression(s, st) == Done(BinaryOp(BinaryOp(a, st1.cur, b), st3.cur, c), st5)
  {
    assert ExpressionRest(s, BinaryOp(a, st1.cur, b), st3)
      == Done(BinaryOp(BinaryOp(a, st1.cur, b), st3.cur, c), st5);
  }

  /** `*` and `/` bind tighter: in `a + b * c` the right operand of `+` is `b * c`. */
  lemma TermBindsTighter(s: string, st: PState, a: Node, b: Node, c: Node,
                         st1: PState, st2: PState, st3: PState, st4: PState, st5: PState)
    requires Sound(s, st)
    requires ParseTerm(s, st) == Done(a, st1) && InExpressionTier(st1.cur.kind)
    requires Eat(s, st1, st1.cur.kind).Done? && Eat(s, st1, st1.cur.kind).st == st2
    requires Factor(s, st2) == Done(b, st3) && InTermTier(st3.cur.kind)
    requires Eat(s, st3, st3.cur.kind).Done? && Eat(s, st3, st3.cur.kind).st == st4
    requires Factor(s, st4) == Done(c, st5)
    requires !InTermTier(st5.cur.kind) && !InExpressionTier(st5.cur.kind)
    ensures ParseExpression(s, st) == Done(BinaryOp(a, st1.cur, BinaryOp(b, st3.cur, c)), st5)
  {
    assert TermRest(s, b, st3) == Done(BinaryOp(b, st3.cur, c), st5);
    assert ParseTerm(s, st2) == Done(BinaryOp(b, st3.cur, c), st5);
  }

  /** After `else`, a following `if` is parsed as a nested if-statement (the chain
      `else if`), anything else as a block. */
  lemma ElseIfChain(s: string, st: PState)
    requires Sound(s, st) && st.cur.kind == Else && Eat(s, st, Else).Done?
    ensures var st1 := Eat(s, st, Else).st;
      ElseBranch(s, st) == (if st1.cur.kind == If then ParseIf(s, st1) else ParseBlock(s, st1))
  {
  }

  /** An identifier followed by `=` starts an assignment, followed by `(` a call, and
      otherwise stands for the variable itself. */
  lemma IdentifierDispatch(s: string, st: PState)
    requires Sound(s, st) && st.cur.kind == Identifier && Eat(s, st, Identifier).Done?
    ensures var st1 := Eat(s, st, Identifier).st;
      && (st1.cur.kind == Equals ==> ParseStatement(s, st) == ParseVariableChange(s, st1))
      && (st1.cur.kind == LeftParen ==> ParseStatement(s, st) == ParseFunctionCall(s, st1))
      && (st1.cur.kind != Equals && st1.cur.kind != LeftParen ==>
            ParseStatement(s, st) == Done(Var(st.cur.text), st1))
  {
  }

  /** The comma loop of `collect_parameters` only appends: the expressions collected
      before it come first, in their order. */
  lemma {:induction false} ParametersRestKeeps(s: string, acc: seq<Node>, st: PState)
    requires Sound(s, st)
    ensures var r := ParametersRest(s, acc, st);
      r.Done? ==> |r.value| >= |acc| && r.value[..|acc|] == acc
    decreases Measure(s, st)
  {
    if st.cur.kind == Comma {
      var e := Eat(s, st, Comma);
      if e.Done? {
        var x := ParseExpression(s, e.st);
        if x.Done? {
          ParametersRestKeeps(s, acc + [x.value], x.st);
          var r := ParametersRest(s, acc + [x.value], x.st);
          assert r.Done? ==> r.value[..|acc|] == (acc + [x.value])[..|acc|];
        }
      }
    }
  }

  /** The statement loop of `parse_compound` only appends: the statements collected
      before it come first, in their order. */
  lemma {:induction false} CompoundRestKeeps(s: string, acc: seq<Node>, st: PState)
    requires Sound(s, st)
    ensures var r := CompoundRest(s, acc, st);
      r.Done? ==> |r.value.children| >= |acc| && r.value.children[..|acc|] == acc
    decreases Measure(s, st)
  {
    if st.cur.kind != EOF && CompoundRest(s, acc, st).Done? {
      var n, st2 := CompoundRestStep(s, acc, st);
      CompoundRestKeeps(s, acc + [n], st2);
      var r := CompoundRest(s, acc + [n], st2);
      assert r.value.children[..|acc|] == (acc + [n])[..|acc|];
    }
  }

  /** A successful round of the loop of `parse_compound` before `EOF`: a separator and a
      statement that consumed something. */
  lemma CompoundRestStep(s: string, acc: seq<Node>, st: PState) returns (n: Node, st2: PState)
    requires Sound(s, st) && st.cur.kind != EOF && CompoundRest(s, acc, st).Done?
    ensures Sound(s, st2) && Measure(s, st2) < Measure(s, st)
    ensures CompoundRest(s, acc, st) == CompoundRest(s, acc + [n], st2)
  {
    var st1 := Separator(s, st).st;
    n, st2 := ParseStatement(s, st1).value, ParseStatement(s, st1).st;
  }

  /** The statement loop of `parse_block` only appends, like the one of `parse_compound`. */
  lemma {:induction false} BlockRestKeeps(s: string, acc: seq<Node>, st: PState)
    requires Sound(s, st)
    ensures var r := BlockRest(s, acc, st);
      r.Done? ==> |r.value.children| >= |acc| && r.value.children[..|acc|] == acc
    decreases Measure(s, st)
  {
    if st.cur.kind != RightCurly && BlockRest(s, acc, st).Done? {
      var n, st2 := BlockRestStep(s, acc, st);
      BlockRestKeeps(s, acc + [n], st2);
      var r := BlockRest(s, acc + [n], st2);
      assert r.value.children[..|acc|] == (acc + [n])[..|acc|];
    }
  }

  /** A successful round of the loop of `parse_block` before `}`. */
  lemma BlockRestStep(s: string, acc: seq<Node>, st: PState) returns (n: Node, st2: PState)
    requires Sound(s, st) && st.cur.kind != RightCurly && BlockRest(s, acc, st).Done?
    ensures Sound(s, st2) && Measure(s, st2) < Measure(s, st)
    ensures BlockRest(s, acc, st) == BlockRest(s, acc + [n], st2)
  {
    var st1 := Separator(s, st).st;
    n, st2 := ParseStatement(s, st1).value, ParseStatement(s, st1).st;
  }

  /** A program and a block hold at least the first statement. */
  lemma NonEmptyBodies(s: string, st: PState)
    requires Sound(s, st)
    ensures ParseCompound(s, st).Done? ==> |ParseCompound(s, st).value.children| >= 1
    ensures ParseBlock(s, st).Done? ==> |ParseBlock(s, st).value.children| >= 1
  {
    var x := ParseStatement(s, st);
    if x.Done? {
      CompoundRestKeeps(s, [x.value], x.st);
    }
    var e := Eat(s, st, LeftCurly);
    if e.Done? {
      var y := ParseStatement(s, e.st);
      if y.Done? {
        BlockRestKeeps(s, [y.value], y.st);
      }
    }
  }
}
