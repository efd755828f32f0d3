/**
 * The meaning of the tree-walking evaluator (Ermis/visitor.py), as pure
 * functions over the shared variable store.  Every scope of a run shares one
 * dictionary, so the store is the evaluator's whole state.
 *
 * A `return` unwinds as the `Returned` outcome until the nearest call turns it
 * into that call's value; every error stops the run.  `while` loops and calls
 * may diverge, so each function takes `fuel`: every loop iteration and every
 * call of a user function spends one unit, and exhaustion is `OutOfFuel`.
 */
module Evaluator {
  import opened Wrappers
  import opened Tokens
  import opened Errors
  import opened Config
  import opened Ast
  import opened Values
  import opened Scope
  import Grammar

  /** The builtin functions (`ermis_globals`): their names, and what calling one with
      given arguments returns.  Printing, sleeping and reading input happen inside
      `invoke` and are not modelled. */
  datatype Registry = Registry(names: set<string>, invoke: (string, seq<Value>) -> Result<Value>)

  /** How visiting a node ends: with a value, with a `return` unwinding (`FoundReturn`),
      or with an error. */
  datatype Outcome = Normal(value: Value) | Returned(value: Value) | Raised(error: Error)

  /** An outcome and the store after it. */
  datatype Exec = Exec(out: Outcome, env: Env)

  /** The argument values of a call, or the outcome that interrupted their evaluation. */
  datatype Arguments = Evaluated(values: seq<Value>) | Interrupted(out: Outcome)

  datatype ArgsExec = ArgsExec(args: Arguments, env: Env)

  /** The store `after` keeps every name of `before`, each bound to a value of the same
      Python type: nothing is ever removed, and an assignment cannot change a type. */
  predicate Extends(before: Env, after: Env)
  {
    forall k :: k in before ==> k in after && TypeOf(after[k]) == TypeOf(before[k])
  }

  function FromResult(r: Result<Value>): Outcome
  {
    match r
    case Ok(v) => Normal(v)
    case Err(e) => Raised(e)
  }

  /** Python's `s * n` for a string and an integer: `n` copies, none when `n <= 0`. */
  function Repeat(s: string, n: int): (r: string)
    ensures |r| == if n <= 0 then 0 else |s| * n
    decreases n
  {
    if n <= 0 then "" else s + Repeat(s, n - 1)
  }

  /** Python's `<` on strings: lexicographic by code point. */
  predicate StrLess(a: string, b: string)
    ensures a < b ==> StrLess(a, b)
    ensures b <= a ==> !StrLess(a, b)
  {
    if a == [] then b != []
    else if b == [] then false
    else if a[0] != b[0] then a[0] < b[0]
    else StrLess(a[1..], b[1..])
  }

  /** Whether comparison `op` holds, given whether the left operand is below or above
      the right one. */
  predicate Holds(op: TokenType, below: bool, above: bool)
  {
    match op
    case GreaterThan => above
    case GreaterEqual => !below
    case LessThan => below
    case LessEqual => !above
    case _ => false
  }

  /** The four ordering comparisons: on numbers, or on two strings. */
  function Compare(op: TokenType, left: Value, right: Value): (r: Result<Value>)
    ensures r.Ok? <==> (IsNumber(left) && IsNumber(right)) || (left.StrV? && right.StrV?)
    ensures r.Err? ==> r.error == OperandTypes(op)
  {
    if IsNumber(left) && IsNumber(right) then
      Ok(BoolV(Holds(op, Num(left) < Num(right), Num(left) > Num(right))))
    else if left.StrV? && right.StrV? then
      Ok(BoolV(Holds(op, StrLess(left.s, right.s), StrLess(right.s, left.s))))
    else Err(OperandTypes(op))
  }

  /** The operator cases of `visit_binary_operation`, applied to two evaluated operands.
      `==` is value equality (the source has no case for it); `and` and `or` return one
      of their operands, as Python does; a kind without a case gives `None`. */
  function ApplyBinary(op: TokenType, left: Value, right: Value): (r: Result<Value>)
    ensures r.Err? ==> op in {Plus, Minus, Multiply, Divide, GreaterThan, GreaterEqual, LessThan, LessEqual}
    ensures r.Err? ==> r.error == OperandTypes(op)
                       || (op == Divide && (r.error == DivisionByZero || r.error == FloatResult))
    ensures IsNumber(left) && IsNumber(right) && op != Divide ==> r.Ok?
    ensures r.Ok? && op in {GreaterThan, GreaterEqual, LessThan, LessEqual, EqualsEquals, NotEquals} ==>
              r.value.BoolV?
  {
    match op
    case Plus =>
      if IsNumber(left) && IsNumber(right) then Ok(IntV(Num(left) + Num(right)))
      else if left.StrV? && right.StrV? then Ok(StrV(left.s + right.s))
      else Err(OperandTypes(op))
    case Minus =>
      if IsNumber(left) && IsNumber(right) then Ok(IntV(Num(left) - Num(right)))
      else Err(OperandTypes(op))
    case Multiply =>
      if IsNumber(left) && IsNumber(right) then Ok(IntV(Num(left) * Num(right)))
      else if left.StrV? && IsNumber(right) then Ok(StrV(Repeat(left.s, Num(right))))
      else if IsNumber(left) && right.StrV? then Ok(StrV(Repeat(right.s, Num(left))))
      else Err(OperandTypes(op))
    case Divide =>
      if IsNumber(left) && IsNumber(right) then
        if Num(right) == 0 then Err(DivisionByZero) else Err(FloatResult)
      else Err(OperandTypes(op))
    case GreaterThan => Compare(op, left, right)
    case GreaterEqual => Compare(op, left, right)
    case LessThan => Compare(op, left, right)
    case LessEqual => Compare(op, left, right)
    case NotEquals => Ok(BoolV(!PyEq(left, right)))
    case EqualsEquals => Ok(BoolV(PyEq(left, right)))
    case And => Ok(if Truthy(left) then right else left)
    case Or => Ok(if Truthy(left) then left else right)
    case _ => Ok(NoneV)
  }

  /** `visit_unary`: `+` keeps a number, any other operator negates it. */
  function ApplyUnary(op: TokenType, v: Value): (r: Result<Value>)
    ensures r.Ok? <==> IsNumber(v)
    ensures r.Ok? ==> r.value == IntV(if op == Plus then Num(v) else -Num(v))
  {
    if !IsNumber(v) then Err(OperandTypes(op))
    else if op == Plus then Ok(IntV(Num(v)))
    else Ok(IntV(-Num(v)))
  }

  /** The `name` attribute each parameter node of a declaration must have. */
  function ParamName(p: Node): (r: Result<string>)
    ensures r.Ok? <==> p.Var? || p.VarAssign? || p.VarDef? || p.Call? || p.FunctionDecl?
    ensures r.Ok? ==> r.value == p.name
    ensures r.Err? ==> r.error == NoNameAttribute
  {
    match p
    case Var(name) => Ok(name)
    case VarAssign(name, _) => Ok(name)
    case VarDef(name, _) => Ok(name)
    case Call(name, _) => Ok(name)
    case FunctionDecl(name, _, _) => Ok(name)
    case _ => Err(NoNameAttribute)
  }

  /** `visit`: dispatch on the node kind.  Python's `None` in place of a node has no
      handler. */
  function Eval(reg: Registry, fuel: nat, n: Node, env: Env): (r: Exec)
    ensures Extends(env, r.env)
    decreases fuel, Size(n), 1
  {
    match n
    case NoOp => Exec(Normal(NoneV), env)
    case Compound(cs) => EvalSeq(reg, fuel, cs, env)
    case Number(v) => Exec(Normal(IntV(v)), env)
    case FloatLit(_) => Exec(Raised(FloatResult), env)
    case Boolean(text) => Exec(Normal(BoolV(text == TrueWord)), env)
    case Str(content) => Exec(Normal(StrV(content)), env)
    case BinaryOp(_, _, _) => EvalBinary(reg, fuel, n, env)
    case UnaryOp(_, _) => EvalUnary(reg, fuel, n, env)
    case VarDef(_, _) => EvalDefinition(reg, fuel, n, env)
    case VarAssign(_, _) => EvalAssignment(reg, fuel, n, env)
    case Var(name) => Exec(FromResult(Lookup(env, name)), env)
    case Call(_, _) => EvalCall(reg, fuel, n, env)
    case FunctionDecl(name, params, body) =>
      (match Define(env, name, FuncV(name, params, body))
       case Err(e) => Exec(Raised(e), env)
       case Ok(env') => Exec(Normal(NoneV), env'))
    case Return(_) => EvalReturn(reg, fuel, n, env)
    case IfStatement(_, _, _) => EvalIf(reg, fuel, n, env)
    case WhileStatement(_, _) => EvalWhile(reg, fuel, n, env)
    case Missing => Exec(Raised(NoHandler), env)
  }

  /** `visit_compound`: the children in order, until one returns or fails. */
  function EvalSeq(reg: Registry, fuel: nat, cs: seq<Node>, env: Env): (r: Exec)
    ensures Extends(env, r.env)
    ensures r.out.Normal? ==> r.out.value == NoneV
    decreases fuel, SizeAll(cs), 0
  {
    if cs == [] then Exec(Normal(NoneV), env)
    else
      var x := Eval(reg, fuel, cs[0], env);
      if !x.out.Normal? then x else EvalSeq(reg, fuel, cs[1..], x.env)
  }

  /** `visit_binary_operation`: both operands, left first, then the operator; `and` and
      `or` do not short-circuit. */
  function EvalBinary(reg: Registry, fuel: nat, n: Node, env: Env): (r: Exec)
    requires n.BinaryOp?
    ensures Extends(env, r.env)
    decreases fuel, Size(n), 0
  {
    var left := Eval(reg, fuel, n.left, env);
    if !left.out.Normal? then left
    else
      var right := Eval(reg, fuel, n.right, left.env);
      if !right.out.Normal? then right
      else Exec(FromResult(ApplyBinary(n.op.kind, left.out.value, right.out.value)), right.env)
  }

  /** `visit_unary`. */
  function EvalUnary(reg: Registry, fuel: nat, n: Node, env: Env): (r: Exec)
    requires n.UnaryOp?
    ensures Extends(env, r.env)
    decreases fuel, Size(n), 0
  {
    var x := Eval(reg, fuel, n.operand, env);
    if !x.out.Normal? then x else Exec(FromResult(ApplyUnary(n.op.kind, x.out.value)), x.env)
  }

  /** `visit_variable_definition`: the initializer first, then `insert`. */
  function EvalDefinition(reg: Registry, fuel: nat, n: Node, env: Env): (r: Exec)
    requires n.VarDef?
    ensures Extends(env, r.env)
    decreases fuel, Size(n), 0
  {
    var x := Eval(reg, fuel, n.right, env);
    if !x.out.Normal? then x
    else
      match Define(x.env, n.name, x.out.value)
      case Err(e) => Exec(Raised(e), x.env)
      case Ok(env') => Exec(Normal(NoneV), env')
  }

  /** `visit_variable_assignment`: the old value is looked up before the right-hand side
      runs; a value of another Python type is refused; the binding is then replaced. */
  function EvalAssignment(reg: Registry, fuel: nat, n: Node, env: Env): (r: Exec)
    requires n.VarAssign?
    ensures Extends(env, r.env)
    decreases fuel, Size(n), 0
  {
    match Lookup(env, n.name)
    case Err(e) => Exec(Raised(e), env)
    case Ok(prior) =>
      var x := Eval(reg, fuel, n.right, env);
      if !x.out.Normal? then x
      else if TypeOf(prior) != TypeOf(x.out.value) then Exec(Raised(WrongType(n.name)), x.env)
      else Exec(Normal(NoneV), x.env[n.name := x.out.value])
  }

  /** `visit_return`: the value unwinds as `Returned`. */
  function EvalReturn(reg: Registry, fuel: nat, n: Node, env: Env): (r: Exec)
    requires n.Return?
    ensures Extends(env, r.env)
    ensures r.out.Normal? ==> false
    decreases fuel, Size(n), 0
  {
    var x := Eval(reg, fuel, n.result, env);
    if x.out.Normal? then Exec(Returned(x.out.value), x.env) else x
  }

  /** `visit_if_statement`: the block when the condition is truthy, else the else-branch
      when there is one. */
  function EvalIf(reg: Registry, fuel: nat, n: Node, env: Env): (r: Exec)
    requires n.IfStatement?
    ensures Extends(env, r.env)
    ensures r.out.Normal? ==> r.out.value == NoneV
    decreases fuel, Size(n), 0
  {
    var c := Eval(reg, fuel, n.cond, env);
    if !c.out.Normal? then c
    else if Truthy(c.out.value) then Discard(Eval(reg, fuel, n.thenBlock, c.env))
    else if n.elseBranch.Some? then Discard(Eval(reg, fuel, n.elseBranch.value, c.env))
    else Exec(Normal(NoneV), c.env)
  }

  /** A handler that returns nothing: a normal outcome becomes `None`. */
  function Discard(x: Exec): (r: Exec)
    ensures r.env == x.env
    ensures x.out.Normal? ==> r.out == Normal(NoneV)
    ensures !x.out.Normal? ==> r == x
  {
    if x.out.Normal? then Exec(Normal(NoneV), x.env) else x
  }

  /** `visit_while_statement`: the body while the condition is truthy; each iteration
      costs one unit of fuel. */
  function EvalWhile(reg: Registry, fuel: nat, n: Node, env: Env): (r: Exec)
    requires n.WhileStatement?
    ensures Extends(env, r.env)
    ensures r.out.Normal? ==> r.out.value == NoneV
    decreases fuel, Size(n), 0
  {
    var c := Eval(reg, fuel, n.cond, env);
    if !c.out.Normal? then c
    else if !Truthy(c.out.value) then Exec(Normal(NoneV), c.env)
    else if fuel == 0 then Exec(Raised(OutOfFuel), c.env)
    else
      var b := Eval(reg, fuel, n.body, c.env);
      if !b.out.Normal? then b else EvalWhile(reg, fuel - 1, n, b.env)
  }

  /** The argument expressions of a call, left to right, after the values `acc` already
      computed. */
  function EvalArgs(reg: Registry, fuel: nat, args: seq<Node>, acc: seq<Value>, env: Env): (r: ArgsExec)
    ensures Extends(env, r.env)
    ensures r.args.Evaluated? ==> |r.args.values| == |acc| + |args| && r.args.values[..|acc|] == acc
    ensures r.args.Interrupted? ==> !r.args.out.Normal?
    decreases fuel, SizeAll(args), 0
  {
    if args == [] then ArgsExec(Evaluated(acc), env)
    else
      var x := Eval(reg, fuel, args[0], env);
      if !x.out.Normal? then ArgsExec(Interrupted(x.out), x.env)
      else
        var r := EvalArgs(reg, fuel, args[1..], acc + [x.out.value], x.env);
        assert r.args.Evaluated? ==> r.args.values[..|acc|] == (acc + [x.out.value])[..|acc|];
        r
  }

  /** The `zip` loop of a call: each parameter's name bound to its argument by `insert`,
      in order, stopping at the first failure. */
  function BindParams(params: seq<Node>, values: seq<Value>, env: Env): (r: Exec)
    requires |params| == |values|
    ensures Extends(env, r.env)
    ensures !r.out.Returned?
    ensures r.out.Normal? ==> (r.out.value == NoneV
      && forall i :: 0 <= i < |params| ==> ParamName(params[i]).Ok? && ParamName(params[i]).value in r.env)
  {
    if params == [] then Exec(Normal(NoneV), env)
    else
      match ParamName(params[0])
      case Err(e) => Exec(Raised(e), env)
      case Ok(name) =>
        match Define(env, name, values[0])
        case Err(e) => Exec(Raised(e), env)
        case Ok(env') =>
          var r := BindParams(params[1..], values[1..], env');
          assert forall i :: 1 <= i < |params| ==> params[i] == params[1..][i - 1];
          r
  }

  /** `visit_function_call`: the arguments first, left to right, then the call. */
  function EvalCall(reg: Registry, fuel: nat, n: Node, env: Env): (r: Exec)
    requires n.Call?
    ensures Extends(env, r.env)
    decreases fuel, Size(n), 0
  {
    var a := EvalArgs(reg, fuel, n.args, [], env);
    match a.args
    case Interrupted(out) => Exec(out, a.env)
    case Evaluated(values) => Invoke(reg, fuel, n.name, values, a.env)
  }

  /** A call of `name` with evaluated arguments: a builtin name is invoked directly;
      otherwise the name must hold a function. */
  function Invoke(reg: Registry, fuel: nat, name: string, values: seq<Value>, env: Env): (r: Exec)
    ensures Extends(env, r.env)
    decreases fuel, 0, 1
  {
    if name in reg.names then Exec(FromResult(reg.invoke(name, values)), env)
    else
      match Lookup(env, name)
      case Err(e) => Exec(Raised(e), env)
      case Ok(f) =>
        if !f.FuncV? then Exec(Raised(NotCallable(name)), env)
        else CallFunction(reg, fuel, f, values, env)
  }

  /** A call of the user function `f`: the arity must match; the parameters are inserted
      into the shared store before the body runs.  A `return` in the body gives the
      call's value, and a body that finishes gives `None`. */
  function CallFunction(reg: Registry, fuel: nat, f: Value, values: seq<Value>, env: Env): (r: Exec)
    requires f.FuncV?
    ensures Extends(env, r.env)
    decreases fuel, 0, 0
  {
    if |f.params| != |values| then Exec(Raised(MissingFunctionParameter(f.name)), env)
    else
      var bound := BindParams(f.params, values, env);
      if !bound.out.Normal? then bound
      else if fuel == 0 then Exec(Raised(OutOfFuel), bound.env)
      else
        var body := Eval(reg, fuel - 1, f.body, bound.env);
        match body.out
        case Returned(v) => Exec(Normal(v), body.env)
        case Normal(_) => Exec(Normal(NoneV), body.env)
        case Raised(e) => body
  }

  /** `visit_program` on a fresh global scope, with a `return` outside any function
      escaping as an error. */
  function Run(reg: Registry, fuel: nat, p: Program): (r: Exec)
    ensures r.out.Normal? ==> r.out.value == NoneV
    ensures !r.out.Returned?
  {
    var x := Eval(reg, fuel, p.body, map[]);
    match x.out
    case Returned(_) => Exec(Raised(UncaughtReturn), x.env)
    case Normal(_) => Exec(Normal(NoneV), x.env)
    case Raised(_) => x
  }

  /** A whole run: lexing, parsing and evaluation of `source`. */
  function Execute(reg: Registry, fuel: nat, source: string): (r: Exec)
    ensures !r.out.Returned?
    ensures r.out.Normal? ==> r.out.value == NoneV && Grammar.ParseProgram(source).Ok?
    ensures Grammar.ParseProgram(source).Err? ==> r.env == map[]
  {
    match Grammar.ParseProgram(source)
    case Err(e) => Exec(Raised(e), map[])
    case Ok(p) => Run(reg, fuel, p)
  }
}
