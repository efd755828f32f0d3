/**
 * The syntax tree (Ermis/AST.py): one datatype with a variant per node class.
 */
module Ast {
  import opened Wrappers
  import opened Tokens

  /** The root `execute` builds around the statements `parse_compound` returns. */
  datatype Program = Program(body: Node)

  datatype Node =
    | NoOp
    | Compound(children: seq<Node>)
    | Number(value: int)
    | FloatLit(text: string)
    | Boolean(text: string)
    | Str(content: string)
    | BinaryOp(left: Node, op: Token, right: Node)
    | UnaryOp(op: Token, operand: Node)
    | VarDef(name: string, right: Node)
    | VarAssign(name: string, right: Node)
    | Var(name: string)
    | Call(name: string, args: seq<Node>)
    | FunctionDecl(name: string, params: seq<Node>, body: Node)
    | Return(result: Node)
    | IfStatement(cond: Node, thenBlock: Node, elseBranch: Option<Node>)
    | WhileStatement(cond: Node, body: Node)
      /** Python's `None` standing where a node was expected (`factor`'s fall-through). */
    | Missing

  /** Node count of the parts of a node the evaluator visits directly (a function
      declaration's body is visited only through a call). */
  function Size(n: Node): (r: nat)
    ensures r >= 1
  {
    match n
    case Compound(cs) => 1 + SizeAll(cs)
    case BinaryOp(l, _, r) => 1 + Size(l) + Size(r)
    case UnaryOp(_, e) => 1 + Size(e)
    case VarDef(_, e) => 1 + Size(e)
    case VarAssign(_, e) => 1 + Size(e)
    case Call(_, args) => 1 + SizeAll(args)
    case Return(e) => 1 + Size(e)
    case IfStatement(c, t, e) => 1 + Size(c) + Size(t) + (if e.Some? then Size(e.value) else 0)
    case WhileStatement(c, b) => 1 + Size(c) + Size(b)
    case _ => 1
  }

  /** Total size of a list of nodes; each element is strictly smaller than the list. */
  function SizeAll(cs: seq<Node>): (r: nat)
    ensures r >= 1
    ensures forall i :: 0 <= i < |cs| ==> Size(cs[i]) < r
  {
    if cs == [] then 1 else Size(cs[0]) + SizeAll(cs[1..])
  }

  /** The value of one decimal digit character. */
  function DigitValue(c: char): int
  {
    c as int - '0' as int
  }

  /** `int(text)` for a run of decimal digits, read most significant digit first. */
  function DecimalValue(digits: string): (v: int)
    ensures (forall i :: 0 <= i < |digits| ==> '0' <= digits[i] <= '9') ==> v >= 0
  {
    if digits == [] then 0
    else DecimalValue(digits[..|digits| - 1]) * 10 + DigitValue(digits[|digits| - 1])
  }

  /** The decimal spelling of a natural number, without leading zeros. */
  function DecimalText(n: nat): (r: string)
    ensures |r| > 0 && forall i :: 0 <= i < |r| ==> '0' <= r[i] <= '9'
  {
    var last := ['0' + ((n % 10) as char)];
    if n < 10 then last else DecimalText(n / 10) + last
  }

  /** Reading back the decimal spelling of `n` gives `n`. */
  lemma {:induction false} DecimalRoundTrip(n: nat)
    ensures DecimalValue(DecimalText(n)) == n
  {
    var last := ['0' + ((n % 10) as char)];
    if n >= 10 {
      DecimalRoundTrip(n / 10);
      var r := DecimalText(n / 10) + last;
      assert r[..|r| - 1] == DecimalText(n / 10);
    }
  }

  /** Leading zeros do not change the value of a digit run. */
  lemma {:induction false} LeadingZero(digits: string)
    ensures DecimalValue(['0'] + digits) == DecimalValue(digits)
  {
    if digits != [] {
      var d := ['0'] + digits;
      assert d[..|d| - 1] == ['0'] + digits[..|digits| - 1];
      LeadingZero(digits[..|digits| - 1]);
    }
  }

  /** A run of `k` zero digits. */
  function Zeros(k: nat): (r: string)
    ensures |r| == k && forall i :: 0 <= i < k ==> r[i] == '0'
  {
    if k == 0 then "" else ['0'] + Zeros(k - 1)
  }

  /** Any number of leading zeros leaves the value of a digit run unchanged. */
  lemma {:induction false} LeadingZeros(k: nat, digits: string)
    ensures DecimalValue(Zeros(k) + digits) == DecimalValue(digits)
  {
    if k > 0 {
      LeadingZeros(k - 1, digits);
      assert Zeros(k) + digits == ['0'] + (Zeros(k - 1) + digits);
      LeadingZero(Zeros(k - 1) + digits);
    } else {
      assert Zeros(k) + digits == digits;
    }
  }

  /** `Number(token)`: the node holds the integer its digit text denotes, whatever
      leading zeros the text has (`int("007")` is 7). */
  function NumberNode(t: Token): (r: Node)
    ensures r.Number? && (forall n: nat :: t.text == DecimalText(n) ==> r.value == n)
    ensures forall k: nat, n: nat :: t.text == Zeros(k) + DecimalText(n) ==> r.value == n
  {
    forall k: nat, n: nat | t.text == Zeros(k) + DecimalText(n) ensures DecimalValue(t.text) == n {
      LeadingZeros(k, DecimalText(n));
      DecimalRoundTrip(n);
    }
    forall n: nat | t.text == DecimalText(n) ensures DecimalValue(t.text) == n {
      DecimalRoundTrip(n);
    }
    Number(DecimalValue(t.text))
  }

  /** `String(token)`: the node holds the token's text unchanged. */
  function StringNode(t: Token): (r: Node)
    ensures r.Str? && r.content == t.text
  {
    Str(t.text)
  }

  /** `Return(right = NOOP())`: a return built without an operand holds a `NOOP`. */
  function ReturnNode(operand: Option<Node>): (r: Node)
    ensures r.Return?
    ensures operand.None? ==> r.result == NoOp
    ensures operand.Some? ==> r.result == operand.value
  {
    Node.Return(if operand.Some? then operand.value else NoOp)
  }

  /** `Variable(token)`: the node's name is the token's text. */
  function VariableNode(t: Token): (r: Node)
    ensures r.Var? && r.name == t.text
  {
    Var(t.text)
  }
}
