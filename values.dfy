/**
 * The values an Ermis program computes: the Python objects the evaluator
 * (Ermis/visitor.py) produces and stores, as a closed union.  Floats are not
 * part of it; every operation that would produce one reports `FloatResult`.
 */
module Values {
  import opened Ast

  datatype Value =
    | IntV(i: int)
    | BoolV(b: bool)
    | StrV(s: string)
      /** A function object: the `Function` node `visit_function` stores. */
    | FuncV(name: string, params: seq<Node>, body: Node)
    | NoneV

  /** A variable store: the dictionary every scope of a run shares. */
  type Env = map<string, Value>

  /** Python's `type(...)`, which an assignment compares. */
  datatype PyType = IntType | BoolType | StrType | FunctionType | NoneType

  function TypeOf(v: Value): (t: PyType)
    ensures (t == IntType || t == BoolType) <==> IsNumber(v)
  {
    match v
    case IntV(_) => IntType
    case BoolV(_) => BoolType
    case StrV(_) => StrType
    case FuncV(_, _, _) => FunctionType
    case NoneV => NoneType
  }

  /** `bool` and `int` take part in arithmetic and comparisons alike (`bool` is a subclass
      of `int` in Python). */
  predicate IsNumber(v: Value)
  {
    v.IntV? || v.BoolV?
  }

  /** The integer a number stands for: `True` is 1 and `False` is 0. */
  function Num(v: Value): (n: int)
    requires IsNumber(v)
    ensures v.IntV? ==> n == v.i
    ensures v.BoolV? ==> n == (if v.b then 1 else 0)
  {
    if v.IntV? then v.i else if v.b then 1 else 0
  }

  /** Python truthiness, as used by `if`, `while`, `and` and `or`. */
  predicate Truthy(v: Value)
    ensures Truthy(v) <==> !PyEq(v, IntV(0)) && !PyEq(v, StrV("")) && v != NoneV
  {
    match v
    case IntV(i) => i != 0
    case BoolV(b) => b
    case StrV(s) => s != ""
    case FuncV(_, _, _) => true
    case NoneV => false
  }

  /** Python's `==` between two values: numbers by value (`True == 1`), strings by
      content, `None` only with itself; values of other type pairs are unequal. */
  predicate PyEq(a: Value, b: Value)
    ensures PyEq(a, b) ==> TypeOf(a) == TypeOf(b) || (IsNumber(a) && IsNumber(b))
  {
    if IsNumber(a) && IsNumber(b) then Num(a) == Num(b)
    else if a.StrV? && b.StrV? then a.s == b.s
    else if a.NoneV? && b.NoneV? then true
    else if a.FuncV? && b.FuncV? then a == b
    else false
  }

  /** Equality is an equivalence relation. */
  lemma PyEqEquivalence(a: Value, b: Value, c: Value)
    ensures PyEq(a, a)
    ensures PyEq(a, b) ==> PyEq(b, a)
    ensures PyEq(a, b) && PyEq(b, c) ==> PyEq(a, c)
  {
  }

  /** Values of the same Python type are equal exactly when they are the same value. */
  lemma PyEqSameType(a: Value, b: Value)
    requires TypeOf(a) == TypeOf(b)
    ensures PyEq(a, b) <==> a == b
  {
  }
}
