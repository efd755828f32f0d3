/**
 * The parser object (Ermis/parser.py): a lexer, the current token and the
 * previous token, advanced by `eat`.  Every method is proved to return what
 * the function of the same name in module Grammar returns, and to leave the
 * parser in the state that function describes.
 */
module Parse {
  import opened Wrappers
  import opened Tokens
  import opened Errors
  import opened Lex
  import opened Ast
  import opened Grammar

  /** The method's result `r` and the parser's state `st` are the outcome `p` the grammar
      prescribes. */
  ghost predicate Agrees<T>(r: Result<T>, p: Parsed<T>, st: PState)
  {
    match p
    case Done(v, st') => r == Ok(v) && st == st'
    case Failed(e) => r == Err(e)
  }

  class Parser {
    const lexer: Lexer
    var current: Token
    var previous: Token

    ghost function State(): PState
      reads this, lexer
    {
      PState(lexer.pos, current, previous)
    }

    ghost predicate Valid()
      reads this, lexer
    {
      lexer.Valid() && Sound(lexer.source, State())
    }

    /** The constructor: reads the first token, which becomes both current and previous. */
    static method Create(lexer: Lexer) returns (r: Result<Parser>)
      requires lexer.Valid()
      modifies lexer
      ensures lexer.Valid()
      ensures var p := Start(lexer.source, old(lexer.pos));
        && (p.Failed? ==> r == Err(p.error))
        && (p.Done? ==> r.Ok? && fresh(r.value) && r.value.lexer == lexer && r.value.State() == p.st)
    {
      var t := lexer.GetNextToken();
      if t.Err? {
        return Err(t.error);
      }
      var parser := new Parser.Init(lexer, t.value);
      return Ok(parser);
    }

    constructor Init(lexer: Lexer, first: Token)
      ensures this.lexer == lexer && current == first && previous == first
    {
      this.lexer := lexer;
      current := first;
      previous := first;
    }

    /** `eat`: on a kind mismatch nothing changes and `WrongToken` is reported. */
    method Eat(k: TokenType) returns (r: Result<Token>)
      requires Valid()
      modifies this, lexer
      ensures lexer.Valid()
      ensures Agrees(r, Grammar.Eat(lexer.source, old(State()), k), State())
      ensures old(current.kind) != k ==> unchanged(this, lexer)
    {
      if current.kind == k {
        var t := lexer.GetNextToken();
        if t.Err? {
          return Err(t.error);
        }
        previous := current;
        current := t.value;
        r := Ok(previous);
      } else {
        r := Err(WrongToken(k, current.kind));
      }
    }

    /** `parse_compound`. */
    method ParseCompound() returns (r: Result<Node>)
      requires Valid()
      modifies this, lexer
      ensures lexer.Valid()
      ensures Agrees(r, Grammar.ParseCompound(lexer.source, old(State())), State())
      decreases Measure(lexer.source, State()), 11
    {
      var first := ParseStatement();
      if first.Err? {
        return Err(first.error);
      }
      var results := [first.value];
      while current.kind != EOF
        invariant Valid()
        invariant CompoundRest(lexer.source, results, State())
          == Grammar.ParseCompound(lexer.source, old(State()))
        decreases Measure(lexer.source, State())
      {
        var pos0, current0, previous0 := lexer.pos, current, previous;
        if previous.kind != RightCurly {
          var semicolon := Eat(Semicolon);
          if semicolon.Err? {
            return Err(semicolon.error);
          }
        }
        var statement := ParseStatement();
        if statement.Err? {
          return Err(statement.error);
        }
        if lexer.pos == pos0 && current == current0 && previous == previous0 {
          return Err(ParserLoops);
        }
        results := results + [statement.value];
      }
      r := Ok(Compound(results));
    }

    /** `parse_statement`. */
    method ParseStatement() returns (r: Result<Node>)
      requires Valid()
      modifies this, lexer
      ensures lexer.Valid()
      ensures Agrees(r, Grammar.ParseStatement(lexer.source, old(State())), State())
      decreases Measure(lexer.source, State()), 8
    {
      match current.kind
      case Let => r := ParseDefinition();
      case Identifier => r := ParseVariable();
      case Function => r := ParseFunction();
      case Return => r := ParseReturn();
      case If => r := ParseIf();
      case While => r := ParseWhile();
      case _ => r := Ok(NoOp);
    }

    /** `parse_while_statement`. */
    method ParseWhile() returns (r: Result<Node>)
      requires Valid()
      modifies this, lexer
      ensures lexer.Valid()
      ensures Agrees(r, Grammar.ParseWhile(lexer.source, old(State())), State())
      decreases Measure(lexer.source, State()), 7
    {
      var condition := Condition(While);
      if condition.Err? {
        return Err(condition.error);
      }
      var block := ParseBlock();
      if block.Err? {
        return Err(block.error);
      }
      r := Ok(WhileStatement(condition.value, block.value));
    }

    /** The keyword, `(`, the condition and `)` at the head of `if` and `while`. */
    method Condition(k: TokenType) returns (r: Result<Node>)
      requires Valid()
      modifies this, lexer
      ensures lexer.Valid()
      ensures Agrees(r, Grammar.Condition(lexer.source, old(State()), k), State())
      decreases Measure(lexer.source, State()), 7
    {
      var keyword := Eat(k);
      if keyword.Err? {
        return Err(keyword.error);
      }
      var open := Eat(LeftParen);
      if open.Err? {
        return Err(open.error);
      }
      var condition := ParseExpression();
      if condition.Err? {
        return Err(condition.error);
      }
      var close := Eat(RightParen);
      if close.Err? {
        return Err(close.error);
      }
      r := condition;
    }

    /** `parse_block`. */
    method ParseBlock() returns (r: Result<Node>)
      requires Valid()
      modifies this, lexer
      ensures lexer.Valid()
      ensures Agrees(r, Grammar.ParseBlock(lexer.source, old(State())), State())
      decreases Measure(lexer.source, State()), 9
    {
      var open := Eat(LeftCurly);
      if open.Err? {
        return Err(open.error);
      }
      var first := ParseStatement();
      if first.Err? {
        return Err(first.error);
      }
      r := BlockRest([first.value]);
    }

    /** The statement loop of `parse_block` after its first statement, and the closing
        `}`. */
    method BlockRest(acc: seq<Node>) returns (r: Result<Node>)
      requires Valid()
      modifies this, lexer
      ensures lexer.Valid()
      ensures Agrees(r, Grammar.BlockRest(lexer.source, acc, old(State())), State())
      decreases Measure(lexer.source, State()), 10
    {
      var block := acc;
      while current.kind != RightCurly
        invariant Valid()
        invariant Grammar.BlockRest(lexer.source, block, State())
          == Grammar.BlockRest(lexer.source, acc, old(State()))
        decreases Measure(lexer.source, State())
      {
        var pos0, current0, previous0 := lexer.pos, current, previous;
        ghost var st0 := State();
        if previous.kind != RightCurly {
          var semicolon := Eat(Semicolon);
          if semicolon.Err? {
            return Err(semicolon.error);
          }
        }
        ghost var st1 := State();
        assert Grammar.Separator(lexer.source, st0).Done? && Grammar.Separator(lexer.source, st0).st == st1;
        var statement := ParseStatement();
        if statement.Err? {
          return Err(statement.error);
        }
        assert Grammar.ParseStatement(lexer.source, st1) == Done(statement.value, State());
        if lexer.pos == pos0 && current == current0 && previous == previous0 {
          return Err(ParserLoops);
        }
        block := block + [statement.value];
      }
      var close := Eat(RightCurly);
      if close.Err? {
        return Err(close.error);
      }
      r := Ok(Compound(block));
    }

    /** `parse_if_statement`. */
    method ParseIf() returns (r: Result<Node>)
      requires Valid()
      modifies this, lexer
      ensures lexer.Valid()
      ensures Agrees(r, Grammar.ParseIf(lexer.source, old(State())), State())
      decreases Measure(lexer.source, State()), 7
    {
      var condition := Condition(If);
      if condition.Err? {
        return Err(condition.error);
      }
      var block := ParseBlock();
      if block.Err? {
        return Err(block.error);
      }
      r := IfRest(condition.value, block.value);
    }

    /** The optional `else` of `parse_if_statement`, after the block. */
    method IfRest(cond: Node, block: Node) returns (r: Result<Node>)
      requires Valid()
      modifies this, lexer
      ensures lexer.Valid()
      ensures Agrees(r, Grammar.IfRest(lexer.source, cond, block, old(State())), State())
      decreases Measure(lexer.source, State()), 7
    {
      var elseBlock: Option<Node> := None;
      if current.kind == Else {
        var other := ElseBranch();
        if other.Err? {
          return Err(other.error);
        }
        elseBlock := Some(other.value);
      }
      r := Ok(IfStatement(cond, block, elseBlock));
    }

    /** `else`, then another if-statement or a block. */
    method ElseBranch() returns (r: Result<Node>)
      requires Valid()
      modifies this, lexer
      ensures lexer.Valid()
      ensures Agrees(r, Grammar.ElseBranch(lexer.source, old(State())), State())
      decreases Measure(lexer.source, State()), 6
    {
      var keyword := Eat(Else);
      if keyword.Err? {
        return Err(keyword.error);
      }
      if current.kind == If {
        r := ParseIf();
      } else {
        r := ParseBlock();
      }
    }

    /** `parse_function`. */
    method ParseFunction() returns (r: Result<Node>)
      requires Valid()
      modifies this, lexer
      ensures lexer.Valid()
      ensures Agrees(r, Grammar.ParseFunction(lexer.source, old(State())), State())
      decreases Measure(lexer.source, State()), 7
    {
      var keyword := Eat(Function);
      if keyword.Err? {
        return Err(keyword.error);
      }
      var name := current.text;
      var identifier := Eat(Identifier);
      if identifier.Err? {
        return Err(identifier.error);
      }
      var rest := FunctionRest();
      if rest.Err? {
        return Err(rest.error);
      }
      r := Ok(FunctionDecl(name, rest.value.0, rest.value.1));
    }

    /** The parameter list and the block of a function declaration. */
    method FunctionRest() returns (r: Result<(seq<Node>, Node)>)
      requires Valid()
      modifies this, lexer
      ensures lexer.Valid()
      ensures Agrees(r, Grammar.FunctionRest(lexer.source, old(State())), State())
      decreases Measure(lexer.source, State()), 7
    {
      var parameters := CollectParameters();
      if parameters.Err? {
        return Err(parameters.error);
      }
      var block := ParseBlock();
      if block.Err? {
        return Err(block.error);
      }
      r := Ok((parameters.value, block.value));
    }

    /** `parse_return`. */
    method ParseReturn() returns (r: Result<Node>)
      requires Valid()
      modifies this, lexer
      ensures lexer.Valid()
      ensures Agrees(r, Grammar.ParseReturn(lexer.source, old(State())), State())
      decreases Measure(lexer.source, State()), 7
    {
      var keyword := Eat(TokenType.Return);
      if keyword.Err? {
        return Err(keyword.error);
      }
      if EndsStatement(current.kind) {
        return Ok(ReturnNode(None));
      }
      var value := ParseExpression();
      if value.Err? {
        return Err(value.error);
      }
      r := Ok(ReturnNode(Some(value.value)));
    }

    /** `collect_parameters`. */
    method CollectParameters() returns (r: Result<seq<Node>>)
      requires Valid()
      modifies this, lexer
      ensures lexer.Valid()
      ensures Agrees(r, Grammar.CollectParameters(lexer.source, old(State())), State())
      decreases Measure(lexer.source, State()), 7
    {
      var open := Eat(LeftParen);
      if open.Err? {
        return Err(open.error);
      }
      var parameters := [];
      if current.kind != RightParen {
        var first := ParseExpression();
        if first.Err? {
          return Err(first.error);
        }
        parameters := [first.value];
        while current.kind == Comma
          invariant Valid()
          invariant ParametersRest(lexer.source, parameters, State())
            == Grammar.CollectParameters(lexer.source, old(State()))
          decreases Measure(lexer.source, State())
        {
          var comma := Eat(Comma);
          if comma.Err? {
            return Err(comma.error);
          }
          var next := ParseExpression();
          if next.Err? {
            return Err(next.error);
          }
          parameters := parameters + [next.value];
        }
      }
      var close := Eat(RightParen);
      if close.Err? {
        return Err(close.error);
      }
      r := Ok(parameters);
    }

    /** `parse_function_call`. */
    method ParseFunctionCall() returns (r: Result<Node>)
      requires Valid()
      modifies this, lexer
      ensures lexer.Valid()
      ensures Agrees(r, Grammar.ParseFunctionCall(lexer.source, old(State())), State())
      decreases Measure(lexer.source, State()), 8
    {
      var name := previous.text;
      var parameters := CollectParameters();
      if parameters.Err? {
        return Err(parameters.error);
      }
      r := Ok(Call(name, parameters.value));
    }

    /** `parse_definition`. */
    method ParseDefinition() returns (r: Result<Node>)
      requires Valid()
      modifies this, lexer
      ensures lexer.Valid()
      ensures Agrees(r, Grammar.ParseDefinition(lexer.source, old(State())), State())
      decreases Measure(lexer.source, State()), 7
    {
      var keyword := Eat(Let);
      if keyword.Err? {
        return Err(keyword.error);
      }
      var name := current.text;
      var identifier := Eat(Identifier);
      if identifier.Err? {
        return Err(identifier.error);
      }
      var equals := Eat(Equals);
      if equals.Err? {
        return Err(equals.error);
      }
      var right := ParseExpression();
      if right.Err? {
        return Err(right.error);
      }
      r := Ok(VarDef(name, right.value));
    }

    /** `parse_variable`. */
    method ParseVariable() returns (r: Result<Node>)
      requires Valid()
      modifies this, lexer
      ensures lexer.Valid()
      ensures Agrees(r, Grammar.ParseVariable(lexer.source, old(State())), State())
      decreases Measure(lexer.source, State()), 1
    {
      var token := current;
      var identifier := Eat(Identifier);
      if identifier.Err? {
        return Err(identifier.error);
      }
      if current.kind == Equals {
        r := ParseVariableChange();
      } else if current.kind == LeftParen {
        r := ParseFunctionCall();
      } else {
        r := Ok(VariableNode(token));
      }
    }

    /** `parse_variable_change`. */
    method ParseVariableChange() returns (r: Result<Node>)
      requires Valid()
      modifies this, lexer
      ensures lexer.Valid()
      ensures Agrees(r, Grammar.ParseVariableChange(lexer.source, old(State())), State())
      decreases Measure(lexer.source, State()), 7
    {
      var name := previous.text;
      var equals := Eat(Equals);
      if equals.Err? {
        return Err(equals.error);
      }
      var value := ParseExpression();
      if value.Err? {
        return Err(value.error);
      }
      r := Ok(VarAssign(name, value.value));
    }

    /** `factor`. */
    method Factor() returns (r: Result<Node>)
      requires Valid()
      modifies this, lexer
      ensures lexer.Valid()
      ensures Agrees(r, Grammar.Factor(lexer.source, old(State())), State())
      decreases Measure(lexer.source, State()), 2
    {
      if current.kind == Identifier {
        r := ParseVariable();
        return;
      }
      var eaten := Eat(current.kind);
      if eaten.Err? {
        return Err(eaten.error);
      }
      var token := previous;
      if token.kind == Plus || token.kind == Minus {
        var operand := Factor();
        if operand.Err? {
          return Err(operand.error);
        }
        r := Ok(UnaryOp(token, operand.value));
      } else if token.kind == LeftParen {
        r := Parenthesized();
      } else if token.kind == Integer {
        r := Ok(NumberNode(token));
      } else if token.kind == Float {
        r := Ok(FloatLit(token.text));
      } else if token.kind == Bool {
        r := Ok(Boolean(token.text));
      } else if token.kind == String {
        r := Ok(StringNode(token));
      } else {
        r := Ok(Missing);
      }
    }

    /** The expression and the closing `)` after an opening `(` in `factor`. */
    method Parenthesized() returns (r: Result<Node>)
      requires Valid()
      modifies this, lexer
      ensures lexer.Valid()
      ensures Agrees(r, Grammar.Parenthesized(lexer.source, old(State())), State())
      decreases Measure(lexer.source, State()), 7
    {
      var node := ParseExpression();
      if node.Err? {
        return Err(node.error);
      }
      var close := Eat(RightParen);
      if close.Err? {
        return Err(close.error);
      }
      r := node;
    }

    /** `term`. */
    method ParseTerm() returns (r: Result<Node>)
      requires Valid()
      modifies this, lexer
      ensures lexer.Valid()
      ensures Agrees(r, Grammar.ParseTerm(lexer.source, old(State())), State())
      decreases Measure(lexer.source, State()), 4
    {
      var node := Factor();
      if node.Err? {
        return node;
      }
      var left := node.value;
      while InTermTier(current.kind)
        invariant Valid()
        invariant TermRest(lexer.source, left, State()) == Grammar.ParseTerm(lexer.source, old(State()))
        decreases Measure(lexer.source, State())
      {
        var token := current;
        var eaten := Eat(token.kind);
        if eaten.Err? {
          return Err(eaten.error);
        }
        var right := Factor();
        if right.Err? {
          return right;
        }
        left := BinaryOp(left, token, right.value);
      }
      r := Ok(left);
    }

    /** `expression`. */
    method ParseExpression() returns (r: Result<Node>)
      requires Valid()
      modifies this, lexer
      ensures lexer.Valid()
      ensures Agrees(r, Grammar.ParseExpression(lexer.source, old(State())), State())
      decreases Measure(lexer.source, State()), 6
    {
      var node := ParseTerm();
      if node.Err? {
        return node;
      }
      var left := node.value;
      while InExpressionTier(current.kind)
        invariant Valid()
        invariant ExpressionRest(lexer.source, left, State())
          == Grammar.ParseExpression(lexer.source, old(State()))
        decreases Measure(lexer.source, State())
      {
        ghost var before := State();
        var token := current;
        var eaten := Eat(token.kind);
        if eaten.Err? {
          return Err(eaten.error);
        }
        ghost var between := State();
        var right := ParseTerm();
        if right.Err? {
          return right;
        }
        ExpressionStep(lexer.source, left, before, between, right.value, State());
        left := BinaryOp(left, token, right.value);
      }
      r := Ok(left);
    }
  }

  /** One round of the loop of `expression`: an operator and a term. */
  lemma ExpressionStep(s: string, left: Node, st: PState, st1: PState, right: Node, st2: PState)
    requires Sound(s, st) && InExpressionTier(st.cur.kind)
    requires Grammar.Eat(s, st, st.cur.kind) == Done(st.cur, st1)
    requires Grammar.ParseTerm(s, st1) == Done(right, st2)
    ensures ExpressionRest(s, left, st) == ExpressionRest(s, BinaryOp(left, st.cur, right), st2)
  {
  }

  /** A lexer over `source`, a parser over it, `parse_compound`, and the program node
      around the result. */
  method ParseProgram(source: string) returns (r: Result<Program>)
    ensures r == Grammar.ParseProgram(source)
  {
    var lexer := new Lexer(source);
    var created := Parser.Create(lexer);
    if created.Err? {
      return Err(created.error);
    }
    var parser := created.value;
    var body := parser.ParseCompound();
    if body.Err? {
      return Err(body.error);
    }
    r := Ok(Program(body.value));
  }
}
