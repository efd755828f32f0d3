/**
 * Properties of the evaluator (Ermis/visitor.py): the operators, the store
 * discipline of definitions, assignments and calls, statement sequencing, and
 * the role of fuel.
 */
module EvalFacts {
  import opened Wrappers
  import opened Tokens
  import opened Errors
  import opened Config
  import opened Ast
  import opened Values
  import opened Scope
  import opened Evaluator

  // ---------------------------------------------------------------- operators

  /** String `<` is a strict order: irreflexive and asymmetric. */
  lemma {:induction false} StrLessStrict(a: string, b: string)
    ensures !StrLess(a, a)
    ensures StrLess(a, b) ==> !StrLess(b, a)
    decreases |a|
  {
    if a != [] {
      StrLessStrict(a[1..], a[1..]);
      if b != [] && a[0] == b[0] {
        StrLessStrict(a[1..], b[1..]);
      }
    }
  }

  /** Any two different strings are ordered one way or the other. */
  lemma {:induction false} StrLessTotal(a: string, b: string)
    requires a != b
    ensures StrLess(a, b) || StrLess(b, a)
    decreases |a|
  {
    if a != [] && b != [] && a[0] == b[0] {
      assert a == [a[0]] + a[1..] && b == [b[0]] + b[1..];
      StrLessTotal(a[1..], b[1..]);
    }
  }

  /** String `<` is transitive. */
  lemma {:induction false} StrLessTransitive(a: string, b: string, c: string)
    requires StrLess(a, b) && StrLess(b, c)
    ensures StrLess(a, c)
    decreases |a|
  {
    if a != [] && a[0] == b[0] && b[0] == c[0] {
      StrLessTransitive(a[1..], b[1..], c[1..]);
    }
  }

  /** `x > y` and `y < x` agree, and so do `x >= y` and `y <= x`; on the operand types the
      comparisons accept, `x <= y` is the negation of `x > y`. */
  lemma ComparisonsAgree(x: Value, y: Value)
    ensures ApplyBinary(GreaterThan, x, y).Ok? <==> ApplyBinary(LessThan, y, x).Ok?
    ensures ApplyBinary(GreaterThan, x, y).Ok? ==>
      && ApplyBinary(GreaterThan, x, y).value == ApplyBinary(LessThan, y, x).value
      && ApplyBinary(GreaterEqual, x, y).value == ApplyBinary(LessEqual, y, x).value
      && ApplyBinary(LessEqual, x, y).value.b == !ApplyBinary(GreaterThan, x, y).value.b
  {
  }

  /** Of two different strings exactly one is below the other. */
  lemma StringComparisonTrichotomy(a: string, b: string)
    ensures var lt := ApplyBinary(LessThan, StrV(a), StrV(b));
      var gt := ApplyBinary(GreaterThan, StrV(a), StrV(b));
      && lt.Ok? && gt.Ok?
      && (a == b ==> !lt.value.b && !gt.value.b)
      && (a != b ==> lt.value.b != gt.value.b)
  {
    StrLessStrict(a, b);
    StrLessStrict(b, a);
    if a != b {
      StrLessTotal(a, b);
    }
  }

  /** `!=` is the negation of `==`, and `==` is reflexive on every value. */
  lemma EqualityOperators(x: Value, y: Value)
    ensures ApplyBinary(NotEquals, x, y).Ok? && ApplyBinary(EqualsEquals, x, y).Ok?
    ensures ApplyBinary(NotEquals, x, y).value.b == !ApplyBinary(EqualsEquals, x, y).value.b
    ensures ApplyBinary(EqualsEquals, x, x) == Ok(BoolV(true))
  {
    PyEqEquivalence(x, y, y);
  }

  /** `and` and `or` return an operand whose truth is the conjunction, respectively the
      disjunction, of the operands' truth. */
  lemma LogicalOperators(x: Value, y: Value)
    ensures ApplyBinary(And, x, y).Ok? && ApplyBinary(Or, x, y).Ok?
    ensures Truthy(ApplyBinary(And, x, y).value) == (Truthy(x) && Truthy(y))
    ensures Truthy(ApplyBinary(Or, x, y).value) == (Truthy(x) || Truthy(y))
    ensures ApplyBinary(And, x, y).value in {x, y} && ApplyBinary(Or, x, y).value in {x, y}
  {
  }

  /** Division never produces a value: its result would be a float. */
  lemma DivisionFails(x: Value, y: Value)
    ensures ApplyBinary(Divide, x, y).Err?
    ensures IsNumber(x) && IsNumber(y) ==>
      ApplyBinary(Divide, x, y).error == (if Num(y) == 0 then DivisionByZero else FloatResult)
  {
  }

  /** Character `i` of `s * n` is character `i % |s|` of `s`: the result is `n` copies. */
  lemma {:induction false} RepeatContents(s: string, n: int)
    ensures |s| > 0 ==> forall i :: 0 <= i < |Repeat(s, n)| ==> Repeat(s, n)[i] == s[i % |s|]
    decreases if n < 0 then 0 else n
  {
    if n > 0 && |s| > 0 {
      RepeatContents(s, n - 1);
      var r := Repeat(s, n);
      var rest := Repeat(s, n - 1);
      assert r == s + rest;
      forall i | 0 <= i < |r| ensures r[i] == s[i % |s|] {
        if i < |s| {
          assert r[i] == s[i];
        } else {
          assert r[i] == rest[i - |s|];
          ModShift(i, |s|);
        }
      }
    }
  }

  lemma ModShift(i: int, k: int)
    requires 0 < k <= i
    ensures (i - k) % k == i % k
  {
    var q, r := (i - k) / k, (i - k) % k;
    assert i - k == q * k + r;
    assert i == (q + 1) * k + r;
    RemainderUnique(i, k, q + 1, r);
  }

  /** Euclidean division leaves exactly one remainder in `[0, k)`. */
  lemma RemainderUnique(a: int, k: int, q: int, r: int)
    requires k > 0 && 0 <= r < k && a == q * k + r
    ensures a % k == r
  {
    var q', r' := a / k, a % k;
    assert a == q' * k + r';
    assert (q - q') * k == r' - r;
    if q > q' {
      MultipleAtLeast(q - q', k);
    } else if q < q' {
      MultipleAtLeast(q' - q, k);
    }
  }

  lemma MultipleAtLeast(m: int, k: int)
    requires m >= 1 && k > 0
    ensures m * k >= k
  {
  }

  /** `+` adds numbers and concatenates strings; `*` repeats a string; mixing a string
      and a number in `+` or `-` is a type error. */
  lemma ArithmeticOperators(x: Value, y: Value, s: string, t: string, k: int)
    ensures IsNumber(x) && IsNumber(y) ==> ApplyBinary(Plus, x, y) == Ok(IntV(Num(x) + Num(y)))
    ensures ApplyBinary(Plus, StrV(s), StrV(t)) == Ok(StrV(s + t))
    ensures ApplyBinary(Multiply, StrV(s), IntV(k)) == ApplyBinary(Multiply, IntV(k), StrV(s))
    ensures ApplyBinary(Multiply, StrV(s), IntV(k)).Ok?
    ensures |ApplyBinary(Multiply, StrV(s), IntV(k)).value.s| == if k <= 0 then 0 else |s| * k
    ensures |s| > 0 ==> var w := ApplyBinary(Multiply, StrV(s), IntV(k)).value.s;
      forall i :: 0 <= i < |w| ==> w[i] == s[i % |s|]
    ensures ApplyBinary(Plus, StrV(s), IntV(k)) == Err(OperandTypes(Plus))
    ensures ApplyBinary(Minus, StrV(s), StrV(t)) == Err(OperandTypes(Minus))
  {
    RepeatContents(s, k);
  }

  /** A kind with no case in the operator dispatch yields `None` rather than an error. */
  lemma UnhandledOperator(op: TokenType, x: Value, y: Value)
    requires op !in {Plus, Minus, Multiply, Divide, GreaterThan, GreaterEqual, LessThan,
                     LessEqual, NotEquals, EqualsEquals, And, Or}
    ensures ApplyBinary(op, x, y) == Ok(NoneV)
  {
  }

  // ---------------------------------------------------------------- literals and names

  /** A boolean literal is true exactly when spelled `Αληθές`. */
  lemma BooleanLiterals(reg: Registry, fuel: nat, env: Env)
    ensures Eval(reg, fuel, Boolean(TrueWord), env) == Exec(Normal(BoolV(true)), env)
    ensures Eval(reg, fuel, Boolean(FalseWord), env) == Exec(Normal(BoolV(false)), env)
  {
    KeywordFacts();
  }

  /** A `return` whose operand is Python's `None` (as `return;` parses as written) has no handler. */
  lemma ReturnOfNothing(reg: Registry, fuel: nat, env: Env)
    ensures Eval(reg, fuel, Node.Return(Missing), env) == Exec(Raised(NoHandler), env)
  {
    assert Eval(reg, fuel, Missing, env) == Exec(Raised(NoHandler), env);
  }

  /** A return built without an operand (its `NOOP` default) unwinds with `None` and
      leaves the store alone. */
  lemma ReturnWithoutOperand(reg: Registry, fuel: nat, env: Env)
    ensures Eval(reg, fuel, ReturnNode(None), env) == Exec(Returned(NoneV), env)
  {
    assert Eval(reg, fuel, NoOp, env) == Exec(Normal(NoneV), env);
  }

  /** A variable reads the store and never changes it. */
  lemma VariableReads(reg: Registry, fuel: nat, name: string, env: Env)
    ensures var r := Eval(reg, fuel, Var(name), env);
      && r.env == env
      && (name in env && env[name] != NoneV ==> r.out == Normal(env[name]))
      && (name !in env || env[name] == NoneV ==> r.out == Raised(UndefinedVariable(name)))
  {
  }

  // ---------------------------------------------------------------- store discipline

  /** Defining a name that is already in the store fails, once the initializer has run. */
  lemma RedefinitionFails(reg: Registry, fuel: nat, name: string, e: Node, env: Env)
    requires name in env
    ensures var x := Eval(reg, fuel, e, env);
      Eval(reg, fuel, VarDef(name, e), env)
        == if x.out.Normal? then Exec(Raised(AlreadyDefined(name)), x.env) else x
  {
  }

  /** A definition of a fresh name binds the initializer's value and keeps every other
      binding. */
  lemma DefinitionBinds(reg: Registry, fuel: nat, name: string, e: Node, env: Env)
    requires Eval(reg, fuel, e, env).out.Normal? && name !in Eval(reg, fuel, e, env).env
    ensures var x := Eval(reg, fuel, e, env);
      Eval(reg, fuel, VarDef(name, e), env) == Exec(Normal(NoneV), x.env[name := x.out.value])
  {
  }

  /** Assigning to a name that is not defined fails before the right-hand side runs. */
  lemma UndefinedAssignmentFailsFirst(reg: Registry, fuel: nat, name: string, e: Node, env: Env)
    requires name !in env || env[name] == NoneV
    ensures Eval(reg, fuel, VarAssign(name, e), env) == Exec(Raised(UndefinedVariable(name)), env)
  {
  }

  /** A successful assignment replaces the binding by a value of the same type, which the
      variable then reads back; no other binding changes. */
  lemma AssignmentReplaces(reg: Registry, fuel: nat, name: string, e: Node, env: Env)
    requires Eval(reg, fuel, VarAssign(name, e), env).out.Normal?
    ensures var x := Eval(reg, fuel, e, env);
      var r := Eval(reg, fuel, VarAssign(name, e), env);
      && x.out.Normal? && name in env
      && TypeOf(x.out.value) == TypeOf(env[name])
      && r.env == x.env[name := x.out.value]
      && Eval(reg, fuel, Var(name), r.env).out == Normal(x.out.value)
  {
    var x := Eval(reg, fuel, e, env);
    var prior := Lookup(env, name);
    assert prior.Ok? && x.out.Normal? && TypeOf(prior.value) == TypeOf(x.out.value);
    assert x.out.value != NoneV;
  }

  /** An assignment of a value of another type is refused and leaves the binding alone. */
  lemma AssignmentKeepsType(reg: Registry, fuel: nat, name: string, e: Node, env: Env)
    requires name in env && env[name] != NoneV
    requires Eval(reg, fuel, e, env).out.Normal?
    requires TypeOf(Eval(reg, fuel, e, env).out.value) != TypeOf(env[name])
    ensures Eval(reg, fuel, VarAssign(name, e), env)
      == Exec(Raised(WrongType(name)), Eval(reg, fuel, e, env).env)
  {
  }

  // ---------------------------------------------------------------- sequencing

  /** Running `a + b` is running `a`, then `b` from where `a` left the store, unless `a`
      stopped (by a `return` or an error). */
  lemma {:induction false} SeqAppend(reg: Registry, fuel: nat, a: seq<Node>, b: seq<Node>, env: Env)
    ensures var x := EvalSeq(reg, fuel, a, env);
      EvalSeq(reg, fuel, a + b, env) == if x.out.Normal? then EvalSeq(reg, fuel, b, x.env) else x
    decreases |a|
  {
    if a != [] {
      assert (a + b)[0] == a[0];
      assert (a + b)[1..] == a[1..] + b;
      var y := Eval(reg, fuel, a[0], env);
      if y.out.Normal? {
        SeqAppend(reg, fuel, a[1..], b, y.env);
      }
    } else {
      assert a + b == b;
    }
  }

  /** A `return` in a statement list ends it: the statements after it never run. */
  lemma ReturnSkipsRest(reg: Registry, fuel: nat, e: Node, rest: seq<Node>, env: Env)
    requires Eval(reg, fuel, e, env).out.Normal?
    ensures var x := Eval(reg, fuel, e, env);
      EvalSeq(reg, fuel, [Node.Return(e)] + rest, env) == Exec(Returned(x.out.value), x.env)
  {
    var x := Eval(reg, fuel, e, env);
    assert ([Node.Return(e)] + rest)[0] == Node.Return(e);
    assert Eval(reg, fuel, Node.Return(e), env) == Exec(Returned(x.out.value), x.env);
  }

  /** A failing statement ends a statement list with its error and its store. */
  lemma ErrorSkipsRest(reg: Registry, fuel: nat, s: Node, rest: seq<Node>, env: Env)
    requires Eval(reg, fuel, s, env).out.Raised?
    ensures EvalSeq(reg, fuel, [s] + rest, env) == Eval(reg, fuel, s, env)
  {
    assert ([s] + rest)[0] == s;
  }

  /** Both operands are evaluated before the operator is applied, so `and` and `or` do
      not short-circuit: a failing right operand fails the operation whatever the left
      one is. */
  lemma NoShortCircuit(reg: Registry, fuel: nat, l: Node, op: Token, rt: Node, env: Env)
    requires Eval(reg, fuel, l, env).out.Normal?
    requires Eval(reg, fuel, rt, Eval(reg, fuel, l, env).env).out.Raised?
    ensures Eval(reg, fuel, BinaryOp(l, op, rt), env) == Eval(reg, fuel, rt, Eval(reg, fuel, l, env).env)
  {
  }

  /** A loop whose condition is falsy runs nothing more; a truthy condition with fuel
      left runs the body and then the loop again with one unit less. */
  lemma WhileSteps(reg: Registry, fuel: nat, c: Node, body: Node, env: Env)
    requires Eval(reg, fuel, c, env).out.Normal?
    ensures var x := Eval(reg, fuel, c, env);
      var w := Eval(reg, fuel, WhileStatement(c, body), env);
      && (!Truthy(x.out.value) ==> w == Exec(Normal(NoneV), x.env))
      && (Truthy(x.out.value) && fuel > 0 ==>
            var b := Eval(reg, fuel, body, x.env);
            w == if b.out.Normal? then Eval(reg, fuel - 1, WhileStatement(c, body), b.env) else b)
  {
  }

  // ---------------------------------------------------------------- calls

  /** A builtin name is called directly, whatever the store binds to that name. */
  lemma BuiltinsShadowFunctions(reg: Registry, fuel: nat, name: string, values: seq<Value>, env: Env)
    requires name in reg.names
    ensures Invoke(reg, fuel, name, values, env) == Exec(FromResult(reg.invoke(name, values)), env)
  {
  }

  /** Calling a name that holds no function, or a function with the wrong number of
      arguments, fails without touching the store. */
  lemma CallErrors(reg: Registry, fuel: nat, name: string, values: seq<Value>, env: Env)
    requires name !in reg.names && name in env && env[name] != NoneV
    ensures !env[name].FuncV? ==>
      Invoke(reg, fuel, name, values, env) == Exec(Raised(NotCallable(name)), env)
    ensures env[name].FuncV? && |env[name].params| != |values| ==>
      Invoke(reg, fuel, name, values, env) == Exec(Raised(MissingFunctionParameter(env[name].name)), env)
  {
  }

  /** The parameters of a call stay in the shared store after it: after any call that
      did not fail, every parameter name is bound. */
  lemma ParametersPersist(reg: Registry, fuel: nat, f: Value, values: seq<Value>, env: Env)
    requires f.FuncV?
    requires !CallFunction(reg, fuel, f, values, env).out.Raised?
    ensures forall i :: 0 <= i < |f.params| ==>
      ParamName(f.params[i]).Ok? && ParamName(f.params[i]).value in CallFunction(reg, fuel, f, values, env).env
  {
    assert |f.params| == |values|;
    var bound := BindParams(f.params, values, env);
    assert bound.out.Normal? && fuel > 0;
    var body := Eval(reg, fuel - 1, f.body, bound.env);
    assert Extends(bound.env, body.env);
  }

  /** Hence a function with parameters cannot be called a second time: inserting its
      first parameter again fails. */
  lemma SecondCallFails(reg: Registry, fuel: nat, fuel': nat, f: Value, values: seq<Value>, values': seq<Value>, env: Env)
    requires f.FuncV? && |f.params| > 0 && |values'| == |f.params|
    requires !CallFunction(reg, fuel, f, values, env).out.Raised?
    ensures var after := CallFunction(reg, fuel, f, values, env).env;
      CallFunction(reg, fuel', f, values', after)
        == Exec(Raised(AlreadyDefined(ParamName(f.params[0]).value)), after)
  {
    ParametersPersist(reg, fuel, f, values, env);
  }

  /** A call whose body returns `v` has the value `v`; a body that finishes without a
      `return` gives `None`. */
  lemma CallValue(reg: Registry, fuel: nat, f: Value, values: seq<Value>, env: Env)
    requires f.FuncV? && fuel > 0 && |f.params| == |values|
    requires BindParams(f.params, values, env).out.Normal?
    ensures var body := Eval(reg, fuel - 1, f.body, BindParams(f.params, values, env).env);
      var r := CallFunction(reg, fuel, f, values, env);
      && (body.out.Returned? ==> r == Exec(Normal(body.out.value), body.env))
      && (body.out.Normal? ==> r == Exec(Normal(NoneV), body.env))
      && (body.out.Raised? ==> r == body)
  {
  }

  /** A `return` outside any function is an error of the whole run. */
  lemma TopLevelReturn(reg: Registry, fuel: nat, p: Program)
    requires Eval(reg, fuel, p.body, map[]).out.Returned?
    ensures Run(reg, fuel, p) == Exec(Raised(UncaughtReturn), Eval(reg, fuel, p.body, map[]).env)
  {
  }
}
