/**
 * Fuel is only a bound on the work of a run (Ermis itself has none): a run
 * that finishes without exhausting its fuel gives the same outcome and the
 * same store with any larger amount.  One lemma per evaluator function, by
 * the same mutual recursion as the functions themselves.
 */
module Fuel {
  import opened Errors
  import opened Ast
  import opened Values
  import opened Scope
  import opened Evaluator

  /** The outcome did not come from running out of fuel. */
  predicate Finished(x: Exec)
  {
    x.out != Raised(OutOfFuel)
  }

  /** A finished run of any amount of fuel ends the same with any larger amount. */
  lemma Monotone(reg: Registry, fuel: nat, more: nat, n: Node, env: Env)
    requires fuel <= more && Finished(Eval(reg, fuel, n, env))
    ensures Eval(reg, more, n, env) == Eval(reg, fuel, n, env)
    decreases more - fuel
  {
    if fuel < more {
      EvalMore(reg, fuel, n, env);
      Monotone(reg, fuel + 1, more, n, env);
    }
  }

  lemma {:induction false} EvalMore(reg: Registry, fuel: nat, n: Node, env: Env)
    requires Finished(Eval(reg, fuel, n, env))
    ensures Eval(reg, fuel + 1, n, env) == Eval(reg, fuel, n, env)
    decreases fuel, Size(n), 1
  {
    match n
    case Compound(cs) => SeqMore(reg, fuel, cs, env);
    case BinaryOp(_, _, _) => BinaryMore(reg, fuel, n, env);
    case UnaryOp(_, _) => UnaryMore(reg, fuel, n, env);
    case VarDef(_, _) => DefinitionMore(reg, fuel, n, env);
    case VarAssign(_, _) => AssignmentMore(reg, fuel, n, env);
    case Call(_, _) => CallMore(reg, fuel, n, env);
    case Return(_) => ReturnMore(reg, fuel, n, env);
    case IfStatement(_, _, _) => IfMore(reg, fuel, n, env);
    case WhileStatement(_, _) => WhileMore(reg, fuel, n, env);
    case _ =>
  }

  lemma {:induction false} SeqMore(reg: Registry, fuel: nat, cs: seq<Node>, env: Env)
    requires Finished(EvalSeq(reg, fuel, cs, env))
    ensures EvalSeq(reg, fuel + 1, cs, env) == EvalSeq(reg, fuel, cs, env)
    decreases fuel, SizeAll(cs), 0
  {
    if cs != [] {
      var x := Eval(reg, fuel, cs[0], env);
      EvalMore(reg, fuel, cs[0], env);
      if x.out.Normal? {
        SeqMore(reg, fuel, cs[1..], x.env);
      }
    }
  }

  lemma {:induction false} BinaryMore(reg: Registry, fuel: nat, n: Node, env: Env)
    requires n.BinaryOp? && Finished(EvalBinary(reg, fuel, n, env))
    ensures EvalBinary(reg, fuel + 1, n, env) == EvalBinary(reg, fuel, n, env)
    decreases fuel, Size(n), 0
  {
    var left := Eval(reg, fuel, n.left, env);
    EvalMore(reg, fuel, n.left, env);
    if left.out.Normal? {
      EvalMore(reg, fuel, n.right, left.env);
    }
  }

  lemma {:induction false} UnaryMore(reg: Registry, fuel: nat, n: Node, env: Env)
    requires n.UnaryOp? && Finished(EvalUnary(reg, fuel, n, env))
    ensures EvalUnary(reg, fuel + 1, n, env) == EvalUnary(reg, fuel, n, env)
    decreases fuel, Size(n), 0
  {
    EvalMore(reg, fuel, n.operand, env);
  }

  lemma {:induction false} DefinitionMore(reg: Registry, fuel: nat, n: Node, env: Env)
    requires n.VarDef? && Finished(EvalDefinition(reg, fuel, n, env))
    ensures EvalDefinition(reg, fuel + 1, n, env) == EvalDefinition(reg, fuel, n, env)
    decreases fuel, Size(n), 0
  {
    EvalMore(reg, fuel, n.right, env);
  }

  lemma {:induction false} AssignmentMore(reg: Registry, fuel: nat, n: Node, env: Env)
    requires n.VarAssign? && Finished(EvalAssignment(reg, fuel, n, env))
    ensures EvalAssignment(reg, fuel + 1, n, env) == EvalAssignment(reg, fuel, n, env)
    decreases fuel, Size(n), 0
  {
    if Lookup(env, n.name).Ok? {
      EvalMore(reg, fuel, n.right, env);
    }
  }

  lemma {:induction false} ReturnMore(reg: Registry, fuel: nat, n: Node, env: Env)
    requires n.Return? && Finished(EvalReturn(reg, fuel, n, env))
    ensures EvalReturn(reg, fuel + 1, n, env) == EvalReturn(reg, fuel, n, env)
    decreases fuel, Size(n), 0
  {
    EvalMore(reg, fuel, n.result, env);
  }

  lemma {:induction false} IfMore(reg: Registry, fuel: nat, n: Node, env: Env)
    requires n.IfStatement? && Finished(EvalIf(reg, fuel, n, env))
    ensures EvalIf(reg, fuel + 1, n, env) == EvalIf(reg, fuel, n, env)
    decreases fuel, Size(n), 0
  {
    var c := Eval(reg, fuel, n.cond, env);
    EvalMore(reg, fuel, n.cond, env);
    if c.out.Normal? {
      if Truthy(c.out.value) {
        EvalMore(reg, fuel, n.thenBlock, c.env);
      } else if n.elseBranch.Some? {
        EvalMore(reg, fuel, n.elseBranch.value, c.env);
      }
    }
  }

  lemma {:induction false} WhileMore(reg: Registry, fuel: nat, n: Node, env: Env)
    requires n.WhileStatement? && Finished(EvalWhile(reg, fuel, n, env))
    ensures EvalWhile(reg, fuel + 1, n, env) == EvalWhile(reg, fuel, n, env)
    decreases fuel, Size(n), 0
  {
    var c := Eval(reg, fuel, n.cond, env);
    EvalMore(reg, fuel, n.cond, env);
    if c.out.Normal? && Truthy(c.out.value) && fuel > 0 {
      var b := Eval(reg, fuel, n.body, c.env);
      EvalMore(reg, fuel, n.body, c.env);
      if b.out.Normal? {
        WhileMore(reg, fuel - 1, n, b.env);
      }
    }
  }

  lemma {:induction false} ArgsMore(reg: Registry, fuel: nat, args: seq<Node>, acc: seq<Value>, env: Env)
    requires EvalArgs(reg, fuel, args, acc, env).args != Interrupted(Raised(OutOfFuel))
    ensures EvalArgs(reg, fuel + 1, args, acc, env) == EvalArgs(reg, fuel, args, acc, env)
    decreases fuel, SizeAll(args), 0
  {
    if args != [] {
      var x := Eval(reg, fuel, args[0], env);
      EvalMore(reg, fuel, args[0], env);
      if x.out.Normal? {
        ArgsMore(reg, fuel, args[1..], acc + [x.out.value], x.env);
      }
    }
  }

  lemma {:induction false} CallMore(reg: Registry, fuel: nat, n: Node, env: Env)
    requires n.Call? && Finished(EvalCall(reg, fuel, n, env))
    ensures EvalCall(reg, fuel + 1, n, env) == EvalCall(reg, fuel, n, env)
    decreases fuel, Size(n), 0
  {
    var a := EvalArgs(reg, fuel, n.args, [], env);
    ArgsMore(reg, fuel, n.args, [], env);
    if a.args.Evaluated? {
      InvokeMore(reg, fuel, n.name, a.args.values, a.env);
    }
  }

  lemma {:induction false} InvokeMore(reg: Registry, fuel: nat, name: string, values: seq<Value>, env: Env)
    requires Finished(Invoke(reg, fuel, name, values, env))
    ensures Invoke(reg, fuel + 1, name, values, env) == Invoke(reg, fuel, name, values, env)
    decreases fuel, 0, 1
  {
    if name !in reg.names && Lookup(env, name).Ok? && Lookup(env, name).value.FuncV? {
      CallFunctionMore(reg, fuel, Lookup(env, name).value, values, env);
    }
  }

  lemma {:induction false} CallFunctionMore(reg: Registry, fuel: nat, f: Value, values: seq<Value>, env: Env)
    requires f.FuncV? && Finished(CallFunction(reg, fuel, f, values, env))
    ensures CallFunction(reg, fuel + 1, f, values, env) == CallFunction(reg, fuel, f, values, env)
    decreases fuel, 0, 0
  {
    if |f.params| == |values| {
      var bound := BindParams(f.params, values, env);
      if bound.out.Normal? && fuel > 0 {
        EvalMore(reg, fuel - 1, f.body, bound.env);
      }
    }
  }

  /** The same holds for a whole program. */
  lemma RunMore(reg: Registry, fuel: nat, more: nat, p: Program)
    requires fuel <= more && Finished(Run(reg, fuel, p))
    ensures Run(reg, more, p) == Run(reg, fuel, p)
  {
    Monotone(reg, fuel, more, p.body, map[]);
  }
}
