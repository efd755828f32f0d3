/**
 * The grammar the recursive-descent parser (Ermis/parser.py) accepts, as pure
 * functions over the parser's state: the lexer cursor, the current token and
 * the previous token.  Each function is the meaning of one parser method; the
 * class `Parse.Parser` is proved to follow them step by step.
 *
 * Termination: every successful `eat` of a token other than `EOF` strictly
 * decreases `Measure`; calls that consume nothing go to a function of lower
 * rank (the second component of each `decreases`).  The two statement loops
 * can make no progress at all (previous token `}` and a statement that
 * consumes nothing); the source then loops forever, and the model reports
 * `ParserLoops` instead.
 */
module Grammar {
  import opened Wrappers
  import opened Tokens
  import opened Errors
  import opened Lex
  import opened Ast

  /** Lexer cursor, current token and previous token. */
  datatype PState = PState(pos: nat, cur: Token, prev: Token)

  /** A parse result together with the state after it, or the error that stopped parsing. */
  datatype Parsed<T> = Done(value: T, st: PState) | Failed(error: Error)

  /** The lexer has reached the end of input whenever the current token is `EOF`. */
  predicate Sound(s: string, st: PState)
  {
    st.cur.kind == EOF ==> |s| <= st.pos
  }

  function Remaining(s: string, pos: nat): nat
  {
    if pos <= |s| then |s| + 1 - pos else 0
  }

  /** Twice the characters left, plus one while the current token is not `EOF`. */
  function Measure(s: string, st: PState): nat
  {
    2 * Remaining(s, st.pos) + (if st.cur.kind == EOF then 0 else 1)
  }

  /** `st'` is a sound state no further from the end than `st`. */
  predicate Within(s: string, st: PState, st': PState)
  {
    Sound(s, st') && Measure(s, st') <= Measure(s, st)
  }

  /** `st'` is a sound state strictly closer to the end than `st`. */
  predicate Advanced(s: string, st: PState, st': PState)
  {
    Sound(s, st') && Measure(s, st') < Measure(s, st)
  }

  /** The kinds `parse_statement` dispatches on. */
  predicate StartsStatement(k: TokenType)
  {
    k == Let || k == Identifier || k == Function || k == TokenType.Return || k == If || k == While
  }

  /** The state a parser starts in over a lexer at `p`: the first token is both current
      and previous. */
  function Start(s: string, p: nat): (r: Parsed<()>)
    ensures r.Done? <==> NextToken(s, p).Ok?
    ensures r.Done? ==> Sound(s, r.st) && r.st.cur == r.st.prev == NextToken(s, p).value.token
  {
    match NextToken(s, p)
    case Err(e) => Failed(e)
    case Ok(l) => Done((), PState(l.next, l.token, l.token))
  }

  /** `eat(k)`: the current token is consumed and returned exactly when it has kind `k`;
      it becomes the previous token and the lexer supplies the next one. */
  function Eat(s: string, st: PState, k: TokenType): (r: Parsed<Token>)
    requires Sound(s, st)
    ensures st.cur.kind != k ==> r == Failed(WrongToken(k, st.cur.kind))
    ensures st.cur.kind == k && NextToken(s, st.pos).Err? ==> r == Failed(NextToken(s, st.pos).error)
    ensures r.Done? ==> st.cur.kind == k && r.value == st.cur
    ensures r.Done? ==> r.st.prev == st.cur && Ok(Lexed(r.st.cur, r.st.pos)) == NextToken(s, st.pos)
    ensures r.Done? ==> Within(s, st, r.st) && (k != EOF ==> Advanced(s, st, r.st))
  {
    if st.cur.kind != k then Failed(WrongToken(k, st.cur.kind))
    else
      match NextToken(s, st.pos)
      case Err(e) => Failed(e)
      case Ok(l) => Done(st.cur, PState(l.next, l.token, st.cur))
  }

  /** The separator rule of both statement loops: a `;` is required unless the previous
      token was `}`, in which case nothing is consumed.  The value says whether a `;` was eaten. */
  function Separator(s: string, st: PState): (r: Parsed<bool>)
    requires Sound(s, st)
    ensures st.prev.kind == RightCurly ==> r == Done(false, st)
    ensures st.prev.kind != RightCurly && st.cur.kind != Semicolon ==>
      r == Failed(WrongToken(Semicolon, st.cur.kind))
    ensures r.Done? ==> (r.st == st || Advanced(s, st, r.st)) && Sound(s, r.st)
  {
    if st.prev.kind == RightCurly then Done(false, st)
    else
      match Eat(s, st, Semicolon)
      case Failed(e) => Failed(e)
      case Done(_, st1) => Done(true, st1)
  }

  /** `parse_compound`: statements up to `EOF`. */
  function ParseCompound(s: string, st: PState): (r: Parsed<Node>)
    requires Sound(s, st)
    ensures r.Done? ==> Within(s, st, r.st) && r.st.cur.kind == EOF
    ensures r.Done? ==> r.value.Compound?
    decreases Measure(s, st), 11
  {
    match ParseStatement(s, st)
    case Failed(e) => Failed(e)
    case Done(first, st1) => CompoundRest(s, [first], st1)
  }

  /** The loop of `parse_compound`, with the statements collected so far. */
  function CompoundRest(s: string, acc: seq<Node>, st: PState): (r: Parsed<Node>)
    requires Sound(s, st)
    ensures r.Done? ==> Within(s, st, r.st) && r.st.cur.kind == EOF
    ensures r.Done? ==> r.value.Compound?
    ensures st.cur.kind == EOF ==> r == Done(Compound(acc), st)
    decreases Measure(s, st), 10
  {
    if st.cur.kind == EOF then Done(Compound(acc), st)
    else
      match Separator(s, st)
      case Failed(e) => Failed(e)
      case Done(_, st1) =>
        match ParseStatement(s, st1)
        case Failed(e) => Failed(e)
        case Done(n, st2) =>
          if st2 == st then Failed(ParserLoops)
          else
            CompoundRest(s, acc + [n], st2)
  }

  /** `parse_statement`: dispatch on the current kind; any other kind is a `NOOP` that
      consumes nothing. */
  function ParseStatement(s: string, st: PState): (r: Parsed<Node>)
    requires Sound(s, st)
    ensures !StartsStatement(st.cur.kind) ==> r == Done(NoOp, st)
    ensures r.Done? && StartsStatement(st.cur.kind) ==> Advanced(s, st, r.st)
    decreases Measure(s, st), 8
  {
    match st.cur.kind
    case Let => ParseDefinition(s, st)
    case Identifier => ParseVariable(s, st)
    case Function => ParseFunction(s, st)
    case Return => ParseReturn(s, st)
    case If => ParseIf(s, st)
    case While => ParseWhile(s, st)
    case _ => Done(NoOp, st)
  }

  /** `parse_while_statement`: `while ( expression ) block`. */
  function ParseWhile(s: string, st: PState): (r: Parsed<Node>)
    requires Sound(s, st)
    ensures r.Done? ==> Advanced(s, st, r.st) && st.cur.kind == While
    ensures r.Done? ==> r.value.WhileStatement? && r.value.body.Compound?
    decreases Measure(s, st), 7
  {
    match Condition(s, st, While)
    case Failed(e) => Failed(e)
    case Done(cond, st1) =>
      match ParseBlock(s, st1)
      case Failed(e) => Failed(e)
      case Done(body, st2) => Done(WhileStatement(cond, body), st2)
  }

  /** The head shared by `if` and `while`: the keyword `k`, then `( expression )`. */
  function Condition(s: string, st: PState, k: TokenType): (r: Parsed<Node>)
    requires Sound(s, st)
    ensures r.Done? ==> Advanced(s, st, r.st) && st.cur.kind == k && r.st.prev.kind == RightParen
    decreases Measure(s, st), 7
  {
    match Eat(s, st, k)
    case Failed(e) => Failed(e)
    case Done(_, st1) =>
      match Eat(s, st1, LeftParen)
      case Failed(e) => Failed(e)
      case Done(_, st2) =>
        Parenthesized(s, st2)
  }

  /** `parse_block`: `{`, statements, `}`. */
  function ParseBlock(s: string, st: PState): (r: Parsed<Node>)
    requires Sound(s, st)
    ensures r.Done? ==> Advanced(s, st, r.st) && st.cur.kind == LeftCurly && r.st.prev.kind == RightCurly
    ensures r.Done? ==> r.value.Compound?
    decreases Measure(s, st), 9
  {
    match Eat(s, st, LeftCurly)
    case Failed(e) => Failed(e)
    case Done(_, st1) =>
      match ParseStatement(s, st1)
      case Failed(e) => Failed(e)
      case Done(first, st2) => BlockRest(s, [first], st2)
  }

  /** The loop of `parse_block`, with the statements collected so far, and the closing `}`. */
  function BlockRest(s: string, acc: seq<Node>, st: PState): (r: Parsed<Node>)
    requires Sound(s, st)
    ensures r.Done? ==> Advanced(s, st, r.st) && r.st.prev.kind == RightCurly
    ensures r.Done? ==> r.value.Compound?
    decreases Measure(s, st), 10
  {
    if st.cur.kind == RightCurly then
      match Eat(s, st, RightCurly)
      case Failed(e) => Failed(e)
      case Done(_, st1) => Done(Compound(acc), st1)
    else
      match Separator(s, st)
      case Failed(e) => Failed(e)
      case Done(_, st1) =>
        match ParseStatement(s, st1)
        case Failed(e) => Failed(e)
        case Done(n, st2) =>
          if st2 == st then Failed(ParserLoops)
          else
            BlockRest(s, acc + [n], st2)
  }

  /** `parse_if_statement`: a condition and a block, then an optional `else` followed by
      either another if-statement or a block. */
  function ParseIf(s: string, st: PState): (r: Parsed<Node>)
    requires Sound(s, st)
    ensures r.Done? ==> Advanced(s, st, r.st) && st.cur.kind == If
    ensures r.Done? ==> r.value.IfStatement? && r.value.thenBlock.Compound?
    ensures r.Done? && r.value.elseBranch.None? ==> r.st.cur.kind != Else
    ensures r.Done? && r.value.elseBranch.Some? ==>
      r.value.elseBranch.value.IfStatement? || r.value.elseBranch.value.Compound?
    decreases Measure(s, st), 7
  {
    var head := Condition(s, st, If);
    if head.Failed? then Failed(head.error)
    else
      var block := ParseBlock(s, head.st);
      if block.Failed? then Failed(block.error)
      else IfRest(s, head.value, block.value, block.st)
  }

  /** The end of an if-statement, after its block: without `else` the statement is
      complete, and otherwise the else-branch follows. */
  function IfRest(s: string, cond: Node, block: Node, st: PState): (r: Parsed<Node>)
    requires Sound(s, st)
    ensures r.Done? ==> Within(s, st, r.st)
    ensures r.Done? ==> r.value.IfStatement? && r.value.cond == cond && r.value.thenBlock == block
    ensures r.Done? && r.value.elseBranch.None? ==> r.st == st && st.cur.kind != Else
    ensures r.Done? && r.value.elseBranch.Some? ==>
      st.cur.kind == Else && (r.value.elseBranch.value.IfStatement? || r.value.elseBranch.value.Compound?)
    decreases Measure(s, st), 7
  {
    if st.cur.kind != Else then Done(IfStatement(cond, block, None), st)
    else
      match ElseBranch(s, st)
      case Failed(e) => Failed(e)
      case Done(other, st3) => Done(IfStatement(cond, block, Some(other)), st3)
  }

  /** What follows `else`: another if-statement when the next token is `if`, else a block. */
  function ElseBranch(s: string, st: PState): (r: Parsed<Node>)
    requires Sound(s, st)
    ensures r.Done? ==> Advanced(s, st, r.st) && st.cur.kind == Else
    ensures r.Done? ==> r.value.IfStatement? || r.value.Compound?
    decreases Measure(s, st), 6
  {
    match Eat(s, st, Else)
    case Failed(e) => Failed(e)
    case Done(_, st1) =>
      if st1.cur.kind == If then ParseIf(s, st1) else ParseBlock(s, st1)
  }

  /** `parse_function`: a name, a parenthesised parameter list and a block. */
  function ParseFunction(s: string, st: PState): (r: Parsed<Node>)
    requires Sound(s, st)
    ensures r.Done? ==> Advanced(s, st, r.st) && st.cur.kind == Function
    ensures r.Done? ==> r.value.FunctionDecl? && r.value.body.Compound?
    decreases Measure(s, st), 7
  {
    match Eat(s, st, Function)
    case Failed(e) => Failed(e)
    case Done(_, st1) =>
      var name := st1.cur.text;
      match Eat(s, st1, Identifier)
      case Failed(e) => Failed(e)
      case Done(_, st2) =>
        match FunctionRest(s, st2)
        case Failed(e) => Failed(e)
        case Done(pair, st3) => Done(FunctionDecl(name, pair.0, pair.1), st3)
  }

  /** The parameter list and the block of a function declaration. */
  function FunctionRest(s: string, st: PState): (r: Parsed<(seq<Node>, Node)>)
    requires Sound(s, st)
    ensures r.Done? ==> Advanced(s, st, r.st) && r.value.1.Compound?
    decreases Measure(s, st), 7
  {
    match CollectParameters(s, st)
    case Failed(e) => Failed(e)
    case Done(params, st1) =>
      match ParseBlock(s, st1)
      case Failed(e) => Failed(e)
      case Done(body, st2) => Done((params, body), st2)
  }

  /** The tokens that can follow a complete statement: `;`, `}` and the end of input. */
  predicate EndsStatement(k: TokenType)
  {
    k == Semicolon || k == RightCurly || k == EOF
  }

  /** `parse_return`: the keyword and an expression. When the keyword ends its statement
      (a `;`, a `}` or the end of input follows it) the return has no operand and holds
      `Return`'s `NOOP` default; that token is left for the statement loop. */
  function ParseReturn(s: string, st: PState): (r: Parsed<Node>)
    requires Sound(s, st)
    ensures r.Done? ==> Advanced(s, st, r.st) && st.cur.kind == TokenType.Return
    ensures r.Done? ==> r.value.Return?
    ensures var k := Eat(s, st, TokenType.Return);
      k.Done? && EndsStatement(k.st.cur.kind) ==> r == Done(ReturnNode(None), k.st)
    decreases Measure(s, st), 7
  {
    match Eat(s, st, TokenType.Return)
    case Failed(e) => Failed(e)
    case Done(_, st1) =>
      if EndsStatement(st1.cur.kind) then Done(ReturnNode(None), st1)
      else
        match ParseExpression(s, st1)
        case Failed(e) => Failed(e)
        case Done(value, st2) => Done(ReturnNode(Some(value)), st2)
  }

  /** `collect_parameters`: `(`, comma-separated expressions in source order, `)`. */
  function CollectParameters(s: string, st: PState): (r: Parsed<seq<Node>>)
    requires Sound(s, st)
    ensures r.Done? ==> Advanced(s, st, r.st) && st.cur.kind == LeftParen && r.st.prev.kind == RightParen
    decreases Measure(s, st), 7
  {
    match Eat(s, st, LeftParen)
    case Failed(e) => Failed(e)
    case Done(_, st1) =>
      if st1.cur.kind == RightParen then
        match Eat(s, st1, RightParen)
        case Failed(e) => Failed(e)
        case Done(_, st2) => Done([], st2)
      else
        match ParseExpression(s, st1)
        case Failed(e) => Failed(e)
        case Done(first, st2) => ParametersRest(s, [first], st2)
  }

  /** The comma loop of `collect_parameters`, with the expressions collected so far, and
      the closing `)`. */
  function ParametersRest(s: string, acc: seq<Node>, st: PState): (r: Parsed<seq<Node>>)
    requires Sound(s, st)
    ensures r.Done? ==> Advanced(s, st, r.st) && r.st.prev.kind == RightParen
    decreases Measure(s, st), 7
  {
    if st.cur.kind == Comma then
      match Eat(s, st, Comma)
      case Failed(e) => Failed(e)
      case Done(_, st1) =>
        match ParseExpression(s, st1)
        case Failed(e) => Failed(e)
        case Done(next, st2) =>
          ParametersRest(s, acc + [next], st2)
    else
      match Eat(s, st, RightParen)
      case Failed(e) => Failed(e)
      case Done(_, st1) => Done(acc, st1)
  }

  /** `parse_function_call`: the callee is the previous token (the identifier just eaten). */
  function ParseFunctionCall(s: string, st: PState): (r: Parsed<Node>)
    requires Sound(s, st)
    ensures r.Done? ==> Advanced(s, st, r.st)
    ensures r.Done? ==> r.value.Call? && r.value.name == st.prev.text
    decreases Measure(s, st), 8
  {
    match CollectParameters(s, st)
    case Failed(e) => Failed(e)
    case Done(args, st1) => Done(Call(st.prev.text, args), st1)
  }

  /** `parse_definition`: `let name = expression`. */
  function ParseDefinition(s: string, st: PState): (r: Parsed<Node>)
    requires Sound(s, st)
    ensures r.Done? ==> Advanced(s, st, r.st) && st.cur.kind == Let
    ensures r.Done? ==> r.value.VarDef?
    decreases Measure(s, st), 7
  {
    match Eat(s, st, Let)
    case Failed(e) => Failed(e)
    case Done(_, st1) =>
      var name := st1.cur.text;
      match Eat(s, st1, Identifier)
      case Failed(e) => Failed(e)
      case Done(_, st2) =>
        match Assigned(s, st2)
        case Failed(e) => Failed(e)
        case Done(right, st3) => Done(VarDef(name, right), st3)
  }

  /** The `=` and the expression that end both a definition and an assignment. */
  function Assigned(s: string, st: PState): (r: Parsed<Node>)
    requires Sound(s, st)
    ensures r.Done? ==> Advanced(s, st, r.st) && st.cur.kind == Equals
    decreases Measure(s, st), 6
  {
    match Eat(s, st, Equals)
    case Failed(e) => Failed(e)
    case Done(_, st1) => ParseExpression(s, st1)
  }

  /** `parse_variable`: an identifier followed by `=` is an assignment, followed by `(` a
      call, and otherwise a reference to the variable. */
  function ParseVariable(s: string, st: PState): (r: Parsed<Node>)
    requires Sound(s, st)
    ensures r.Done? ==> Advanced(s, st, r.st) && st.cur.kind == Identifier
    ensures r.Done? ==> (r.value.VarAssign? || r.value.Call? || r.value.Var?) && r.value.name == st.cur.text
    decreases Measure(s, st), 1
  {
    var token := st.cur;
    match Eat(s, st, Identifier)
    case Failed(e) => Failed(e)
    case Done(_, st1) =>
      if st1.cur.kind == Equals then ParseVariableChange(s, st1)
      else if st1.cur.kind == LeftParen then ParseFunctionCall(s, st1)
      else Done(VariableNode(token), st1)
  }

  /** `parse_variable_change`: the target is the previous token (the identifier just eaten). */
  function ParseVariableChange(s: string, st: PState): (r: Parsed<Node>)
    requires Sound(s, st)
    ensures r.Done? ==> Advanced(s, st, r.st) && st.cur.kind == Equals
    ensures r.Done? ==> r.value.VarAssign? && r.value.name == st.prev.text
    decreases Measure(s, st), 7
  {
    var name := st.prev.text;
    match Assigned(s, st)
    case Failed(e) => Failed(e)
    case Done(right, st1) => Done(VarAssign(name, right), st1)
  }

  /** `factor`: an identifier goes to `parse_variable`; otherwise exactly one token of any
      kind is eaten and dispatched on.  Kinds without a case give Python's `None`. */
  function Factor(s: string, st: PState): (r: Parsed<Node>)
    requires Sound(s, st)
    ensures r.Done? ==> Within(s, st, r.st)
    ensures r.Done? && st.cur.kind != EOF ==> Advanced(s, st, r.st)
    decreases Measure(s, st), 2
  {
    if st.cur.kind == Identifier then ParseVariable(s, st)
    else
      match Eat(s, st, st.cur.kind)
      case Failed(e) => Failed(e)
      case Done(token, st1) =>
        if token.kind == Plus || token.kind == Minus then
          match Factor(s, st1)
          case Failed(e) => Failed(e)
          case Done(operand, st2) => Done(UnaryOp(token, operand), st2)
        else if token.kind == LeftParen then Parenthesized(s, st1)
        else if token.kind == Integer then Done(NumberNode(token), st1)
        else if token.kind == Float then Done(FloatLit(token.text), st1)
        else if token.kind == Bool then Done(Boolean(token.text), st1)
        else if token.kind == String then Done(StringNode(token), st1)
        else Done(Missing, st1)
  }

  /** The expression and the closing `)` after an opening `(`, in `factor` and in the head
      of `if` and `while`. */
  function Parenthesized(s: string, st: PState): (r: Parsed<Node>)
    requires Sound(s, st)
    ensures r.Done? ==> Advanced(s, st, r.st) && r.st.prev.kind == RightParen
    decreases Measure(s, st), 7
  {
    match ParseExpression(s, st)
    case Failed(e) => Failed(e)
    case Done(node, st1) =>
      match Eat(s, st1, RightParen)
      case Failed(e) => Failed(e)
      case Done(_, st2) => Done(node, st2)
  }

  /** `term`: a factor, then `*` or `/` and a factor, as long as they come, grouped to
      the left. */
  function ParseTerm(s: string, st: PState): (r: Parsed<Node>)
    requires Sound(s, st)
    ensures r.Done? ==> Within(s, st, r.st) && !InTermTier(r.st.cur.kind)
    decreases Measure(s, st), 4
  {
    match Factor(s, st)
    case Failed(e) => Failed(e)
    case Done(node, st1) => TermRest(s, node, st1)
  }

  /** The loop of `term`, with the node built so far as left operand. */
  function TermRest(s: string, left: Node, st: PState): (r: Parsed<Node>)
    requires Sound(s, st)
    ensures r.Done? ==> Within(s, st, r.st) && !InTermTier(r.st.cur.kind)
    ensures !InTermTier(st.cur.kind) ==> r == Done(left, st)
    decreases Measure(s, st), 3
  {
    if InTermTier(st.cur.kind) then
      match Eat(s, st, st.cur.kind)
      case Failed(e) => Failed(e)
      case Done(token, st1) =>
        match Factor(s, st1)
        case Failed(e) => Failed(e)
        case Done(right, st2) => TermRest(s, BinaryOp(left, token, right), st2)
    else Done(left, st)
  }

  /** `expression`: a term, then an operator of the expression tier and a term, as long
      as they come, grouped to the left. */
  function ParseExpression(s: string, st: PState): (r: Parsed<Node>)
    requires Sound(s, st)
    ensures r.Done? ==> Within(s, st, r.st) && !InExpressionTier(r.st.cur.kind)
    decreases Measure(s, st), 6
  {
    match ParseTerm(s, st)
    case Failed(e) => Failed(e)
    case Done(node, st1) => ExpressionRest(s, node, st1)
  }

  /** The loop of `expression`, with the node built so far as left operand. */
  function ExpressionRest(s: string, left: Node, st: PState): (r: Parsed<Node>)
    requires Sound(s, st)
    ensures r.Done? ==> Within(s, st, r.st) && !InExpressionTier(r.st.cur.kind)
    ensures !InExpressionTier(st.cur.kind) ==> r == Done(left, st)
    decreases Measure(s, st), 5
  {
    if InExpressionTier(st.cur.kind) then
      match Eat(s, st, st.cur.kind)
      case Failed(e) => Failed(e)
      case Done(token, st1) =>
        match ParseTerm(s, st1)
        case Failed(e) => Failed(e)
        case Done(right, st2) => ExpressionRest(s, BinaryOp(left, token, right), st2)
    else Done(left, st)
  }

  /** The parser's constructor followed by `parse_compound`, wrapped as the program node
      `execute` builds. */
  function ParseProgram(s: string): (r: Result<Program>)
    ensures r.Ok? ==> r.value.body.Compound?
  {
    match Start(s, 0)
    case Failed(e) => Err(e)
    case Done(_, st) =>
      match ParseCompound(s, st)
      case Failed(e) => Err(e)
      case Done(body, _) => Ok(Program(body))
  }
}
