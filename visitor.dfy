/**
 * The tree-walking interpreter (Ermis/visitor.py) as an object: it holds the
 * builtin functions and the current scope, and each `visit_*` handler is a
 * method.  Every handler is proved to do what the matching function of module
 * Evaluator says, both for its outcome and for the store it leaves behind;
 * a `return` travels back as the `Returned` outcome instead of an exception.
 */
module Visitor {
  import opened Errors
  import opened Ast
  import opened Values
  import opened Scope
  import opened Evaluator
  import Grammar
  import Parse

  /** The name of the scope `visit_program` creates. */
  const GlobalName: string := "global"

  class Interpreter {
    const registry: Registry
    var currentScope: LocalScope?

    /** A new interpreter has no scope until it visits a program. */
    constructor (registry: Registry)
      ensures this.registry == registry && currentScope == null
    {
      this.registry := registry;
      currentScope := null;
    }

    /** Inside a program: there is a current scope, and it shares the store of its
        chain. */
    ghost predicate Ready()
      reads this
    {
      currentScope != null && currentScope.Chain()
    }

    /** `visit`: dispatch on the node kind.  Leaves the current scope as it found it. */
    method Visit(fuel: nat, n: Node) returns (out: Outcome)
      requires Ready()
      modifies this, currentScope.data
      ensures currentScope == old(currentScope)
      ensures Exec(out, currentScope.data.bindings) == Eval(registry, fuel, n, old(currentScope.data.bindings))
      decreases fuel, Size(n), 1
    {
      match n
      case NoOp => out := Normal(NoneV);
      case Compound(_) => out := VisitCompound(fuel, n);
      case Number(v) => out := Normal(IntV(v));
      case FloatLit(_) => out := Raised(FloatResult);
      case Boolean(text) => out := Normal(BoolV(text == Config.TrueWord));
      case Str(content) => out := Normal(StrV(content));
      case BinaryOp(_, _, _) => out := VisitBinary(fuel, n);
      case UnaryOp(_, _) => out := VisitUnary(fuel, n);
      case VarDef(_, _) => out := VisitDefinition(fuel, n);
      case VarAssign(_, _) => out := VisitAssignment(fuel, n);
      case Var(name) =>
        var found := currentScope.Find(name);
        out := FromResult(found);
      case Call(_, _) => out := VisitCall(fuel, n);
      case FunctionDecl(_, _, _) => out := VisitFunction(fuel, n);
      case Return(_) => out := VisitReturn(fuel, n);
      case IfStatement(_, _, _) => out := VisitIf(fuel, n);
      case WhileStatement(_, _) => out := VisitWhile(fuel, n);
      case Missing => out := Raised(NoHandler);
    }

    /** `visit_compound`. */
    method VisitCompound(fuel: nat, n: Node) returns (out: Outcome)
      requires Ready() && n.Compound?
      modifies this, currentScope.data
      ensures currentScope == old(currentScope)
      ensures Exec(out, currentScope.data.bindings) == EvalSeq(registry, fuel, n.children, old(currentScope.data.bindings))
      decreases fuel, Size(n), 0
    {
      var cs := n.children;
      var i := 0;
      while i < |cs|
        invariant 0 <= i <= |cs|
        invariant currentScope == old(currentScope)
        invariant EvalSeq(registry, fuel, cs[i..], currentScope.data.bindings)
          == EvalSeq(registry, fuel, cs, old(currentScope.data.bindings))
      {
        assert cs[i..][0] == cs[i] && cs[i..][1..] == cs[i + 1..];
        var o := Visit(fuel, cs[i]);
        if !o.Normal? {
          return o;
        }
        i := i + 1;
      }
      out := Normal(NoneV);
    }

    /** `visit_binary_operation`. */
    method VisitBinary(fuel: nat, n: Node) returns (out: Outcome)
      requires Ready() && n.BinaryOp?
      modifies this, currentScope.data
      ensures currentScope == old(currentScope)
      ensures Exec(out, currentScope.data.bindings) == EvalBinary(registry, fuel, n, old(currentScope.data.bindings))
      decreases fuel, Size(n), 0
    {
      var left := Visit(fuel, n.left);
      if !left.Normal? {
        return left;
      }
      var right := Visit(fuel, n.right);
      if !right.Normal? {
        return right;
      }
      out := FromResult(ApplyBinary(n.op.kind, left.value, right.value));
    }

    /** `visit_unary`. */
    method VisitUnary(fuel: nat, n: Node) returns (out: Outcome)
      requires Ready() && n.UnaryOp?
      modifies this, currentScope.data
      ensures currentScope == old(currentScope)
      ensures Exec(out, currentScope.data.bindings) == EvalUnary(registry, fuel, n, old(currentScope.data.bindings))
      decreases fuel, Size(n), 0
    {
      var v := Visit(fuel, n.operand);
      if !v.Normal? {
        return v;
      }
      out := FromResult(ApplyUnary(n.op.kind, v.value));
    }

    /** `visit_variable_definition`. */
    method VisitDefinition(fuel: nat, n: Node) returns (out: Outcome)
      requires Ready() && n.VarDef?
      modifies this, currentScope.data
      ensures currentScope == old(currentScope)
      ensures Exec(out, currentScope.data.bindings) == EvalDefinition(registry, fuel, n, old(currentScope.data.bindings))
      decreases fuel, Size(n), 0
    {
      var v := Visit(fuel, n.right);
      if !v.Normal? {
        return v;
      }
      var inserted := currentScope.Insert(n.name, v.value);
      out := if inserted.Err? then Raised(inserted.error) else Normal(NoneV);
    }

    /** `visit_variable_assignment`, replacing the binding in the shared store. */
    method VisitAssignment(fuel: nat, n: Node) returns (out: Outcome)
      requires Ready() && n.VarAssign?
      modifies this, currentScope.data
      ensures currentScope == old(currentScope)
      ensures Exec(out, currentScope.data.bindings) == EvalAssignment(registry, fuel, n, old(currentScope.data.bindings))
      decreases fuel, Size(n), 0
    {
      var prior := currentScope.Find(n.name);
      if prior.Err? {
        return Raised(prior.error);
      }
      var v := Visit(fuel, n.right);
      if !v.Normal? {
        return v;
      }
      if TypeOf(prior.value) != TypeOf(v.value) {
        return Raised(WrongType(n.name));
      }
      currentScope.data.bindings := currentScope.data.bindings[n.name := v.value];
      out := Normal(NoneV);
    }

    /** `visit_function`: the declaration itself is stored under its name. */
    method VisitFunction(fuel: nat, n: Node) returns (out: Outcome)
      requires Ready() && n.FunctionDecl?
      modifies currentScope.data
      ensures Exec(out, currentScope.data.bindings) == Eval(registry, fuel, n, old(currentScope.data.bindings))
    {
      var inserted := currentScope.Insert(n.name, FuncV(n.name, n.params, n.body));
      out := if inserted.Err? then Raised(inserted.error) else Normal(NoneV);
    }

    /** `visit_return`. */
    method VisitReturn(fuel: nat, n: Node) returns (out: Outcome)
      requires Ready() && n.Return?
      modifies this, currentScope.data
      ensures currentScope == old(currentScope)
      ensures Exec(out, currentScope.data.bindings) == EvalReturn(registry, fuel, n, old(currentScope.data.bindings))
      decreases fuel, Size(n), 0
    {
      var v := Visit(fuel, n.result);
      out := if v.Normal? then Returned(v.value) else v;
    }

    /** `visit_if_statement`. */
    method VisitIf(fuel: nat, n: Node) returns (out: Outcome)
      requires Ready() && n.IfStatement?
      modifies this, currentScope.data
      ensures currentScope == old(currentScope)
      ensures Exec(out, currentScope.data.bindings) == EvalIf(registry, fuel, n, old(currentScope.data.bindings))
      decreases fuel, Size(n), 0
    {
      var c := Visit(fuel, n.cond);
      if !c.Normal? {
        return c;
      }
      if Truthy(c.value) {
        var b := Visit(fuel, n.thenBlock);
        out := if b.Normal? then Normal(NoneV) else b;
      } else if n.elseBranch.Some? {
        var b := Visit(fuel, n.elseBranch.value);
        out := if b.Normal? then Normal(NoneV) else b;
      } else {
        out := Normal(NoneV);
      }
    }

    /** `visit_while_statement`: one unit of fuel per iteration. */
    method VisitWhile(fuel: nat, n: Node) returns (out: Outcome)
      requires Ready() && n.WhileStatement?
      modifies this, currentScope.data
      ensures currentScope == old(currentScope)
      ensures Exec(out, currentScope.data.bindings) == EvalWhile(registry, fuel, n, old(currentScope.data.bindings))
      decreases fuel, Size(n), 0
    {
      var f: nat := fuel;
      while true
        invariant f <= fuel
        invariant currentScope == old(currentScope)
        invariant EvalWhile(registry, f, n, currentScope.data.bindings)
          == EvalWhile(registry, fuel, n, old(currentScope.data.bindings))
        decreases f
      {
        var c := Visit(f, n.cond);
        if !c.Normal? {
          return c;
        }
        if !Truthy(c.value) {
          return Normal(NoneV);
        }
        if f == 0 {
          return Raised(OutOfFuel);
        }
        var b := Visit(f, n.body);
        if !b.Normal? {
          return b;
        }
        f := f - 1;
      }
    }

    /** `visit_function_call`: the arguments, left to right, then the call. */
    method VisitCall(fuel: nat, n: Node) returns (out: Outcome)
      requires Ready() && n.Call?
      modifies this, currentScope.data
      ensures currentScope == old(currentScope)
      ensures Exec(out, currentScope.data.bindings) == EvalCall(registry, fuel, n, old(currentScope.data.bindings))
      decreases fuel, Size(n), 0
    {
      var args := n.args;
      var values: seq<Value> := [];
      var i := 0;
      while i < |args|
        invariant 0 <= i <= |args| && |values| == i
        invariant currentScope == old(currentScope)
        invariant EvalArgs(registry, fuel, args[i..], values, currentScope.data.bindings)
          == EvalArgs(registry, fuel, args, [], old(currentScope.data.bindings))
      {
        assert args[i..][0] == args[i] && args[i..][1..] == args[i + 1..];
        var o := Visit(fuel, args[i]);
        if !o.Normal? {
          return o;
        }
        values := values + [o.value];
        i := i + 1;
      }
      out := Invoke(fuel, n.name, values);
    }

    /** The call proper: a builtin is invoked directly; otherwise the name must hold a
        function. */
    method Invoke(fuel: nat, name: string, values: seq<Value>) returns (out: Outcome)
      requires Ready()
      modifies this, currentScope.data
      ensures currentScope == old(currentScope)
      ensures Exec(out, currentScope.data.bindings) == Evaluator.Invoke(registry, fuel, name, values, old(currentScope.data.bindings))
      decreases fuel, 0, 1
    {
      if name in registry.names {
        return FromResult(registry.invoke(name, values));
      }
      var found := currentScope.Find(name);
      if found.Err? {
        return Raised(found.error);
      }
      if !found.value.FuncV? {
        return Raised(NotCallable(name));
      }
      out := CallFunction(fuel, name, found.value, values);
    }

    /** A user function's call: its scope encloses the current one (and so shares its
        store) while the body runs, and the current scope is restored afterwards. */
    method CallFunction(fuel: nat, name: string, f: Value, values: seq<Value>) returns (out: Outcome)
      requires Ready() && f.FuncV?
      modifies this, currentScope.data
      ensures currentScope == old(currentScope)
      ensures Exec(out, currentScope.data.bindings) == Evaluator.CallFunction(registry, fuel, f, values, old(currentScope.data.bindings))
      decreases fuel, 0, 0
    {
      ghost var before := currentScope.data.bindings;
      var functionScope := new LocalScope(name, currentScope);
      if |f.params| != |values| {
        return Raised(MissingFunctionParameter(f.name));
      }
      out := Bind(functionScope, f.params, values);
      ghost var bound := BindParams(f.params, values, before);
      assert Exec(out, currentScope.data.bindings) == bound;
      if !out.Normal? {
        return;
      }
      if fuel == 0 {
        return Raised(OutOfFuel);
      }
      currentScope := functionScope;
      var result := Visit(fuel - 1, f.body);
      currentScope := currentScope.enclosing;
      assert Exec(result, currentScope.data.bindings) == Eval(registry, fuel - 1, f.body, bound.env);
      match result
      case Returned(v) => out := Normal(v);
      case Normal(_) => out := Normal(NoneV);
      case Raised(_) => out := result;
    }

    /** The `zip` loop: each parameter name inserted into the function's scope. */
    method Bind(functionScope: LocalScope, params: seq<Node>, values: seq<Value>) returns (out: Outcome)
      requires |params| == |values|
      modifies functionScope.data
      ensures Exec(out, functionScope.data.bindings) == BindParams(params, values, old(functionScope.data.bindings))
    {
      var j := 0;
      while j < |params|
        invariant 0 <= j <= |params|
        invariant BindParams(params[j..], values[j..], functionScope.data.bindings)
          == BindParams(params, values, old(functionScope.data.bindings))
      {
        assert params[j..][1..] == params[j + 1..] && values[j..][1..] == values[j + 1..];
        var name := ParamName(params[j]);
        if name.Err? {
          return Raised(name.error);
        }
        var inserted := functionScope.Insert(name.value, values[j]);
        if inserted.Err? {
          return Raised(inserted.error);
        }
        j := j + 1;
      }
      out := Normal(NoneV);
    }

    /** `visit_program`: a fresh global scope becomes the current one, and the program
        body runs in it. */
    method VisitProgram(fuel: nat, p: Program) returns (out: Outcome)
      requires currentScope == null
      modifies this
      ensures currentScope != null && fresh(currentScope) && currentScope.enclosing == null
      ensures Exec(out, currentScope.data.bindings) == Run(registry, fuel, p)
    {
      var global := new LocalScope(GlobalName, null);
      currentScope := global;
      var x := Visit(fuel, p.body);
      match x
      case Returned(_) => out := Raised(UncaughtReturn);
      case Normal(_) => out := Normal(NoneV);
      case Raised(_) => out := x;
    }

    /** `execute`: parse the whole source, then visit the program. */
    method Execute(fuel: nat, source: string) returns (out: Outcome)
      requires currentScope == null
      modifies this
      ensures Grammar.ParseProgram(source).Err? ==>
        (currentScope == null && Exec(out, map[]) == Evaluator.Execute(registry, fuel, source))
      ensures Grammar.ParseProgram(source).Ok? ==>
        (currentScope != null && Exec(out, currentScope.data.bindings) == Evaluator.Execute(registry, fuel, source))
    {
      var parsed := Parse.ParseProgram(source);
      if parsed.Err? {
        return Raised(parsed.error);
      }
      out := VisitProgram(fuel, parsed.value);
    }
  }
}
