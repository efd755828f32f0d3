/**
 * Token kinds and tokens (Ermis/token.py).
 *
 * The source declares the kinds as a Python Enum whose numeric values matter:
 * the parser selects its expression tier by a range of values.
 */
module Tokens {
  import opened Wrappers

  datatype TokenType =
    | Let | Identifier | Integer | Float | String | Bool | Equals
    | LeftParen | RightParen | Comma | Function | Return
    | GreaterThan | GreaterEqual | LessThan | LessEqual | EqualsEquals | NotEquals
    | And | Or | Plus | Minus
    | Multiply | Divide | If | Else | Semicolon | LeftCurly | RightCurly | While | EOF

  /** The numeric value the enum gives each kind. */
  function Value(k: TokenType): (v: int)
    ensures 0 <= v <= 37 && v != 12 && v != 13 && v != 14 && v != 27
  {
    match k
    case Let => 0
    case Identifier => 1
    case Integer => 2
    case Float => 3
    case String => 4
    case Bool => 5
    case Equals => 6
    case LeftParen => 7
    case RightParen => 8
    case Comma => 9
    case Function => 10
    case Return => 11
    case GreaterThan => 15
    case GreaterEqual => 16
    case LessThan => 17
    case LessEqual => 18
    case EqualsEquals => 19
    case NotEquals => 20
    case And => 21
    case Or => 22
    case Plus => 23
    case Minus => 24
    case Multiply => 25
    case Divide => 26
    case If => 37
    case Else => 28
    case Semicolon => 29
    case LeftCurly => 30
    case RightCurly => 31
    case While => 32
    case EOF => 33
  }

  /** Enum lookup by value (`TokenTypes(v)`); `None` where Python raises ValueError. */
  function KindOf(v: int): Option<TokenType>
  {
    if v == 0 then Some(Let) else if v == 1 then Some(Identifier)
    else if v == 2 then Some(Integer) else if v == 3 then Some(Float)
    else if v == 4 then Some(String) else if v == 5 then Some(Bool)
    else if v == 6 then Some(Equals) else if v == 7 then Some(LeftParen)
    else if v == 8 then Some(RightParen) else if v == 9 then Some(Comma)
    else if v == 10 then Some(Function) else if v == 11 then Some(Return)
    else if v == 15 then Some(GreaterThan) else if v == 16 then Some(GreaterEqual)
    else if v == 17 then Some(LessThan) else if v == 18 then Some(LessEqual)
    else if v == 19 then Some(EqualsEquals) else if v == 20 then Some(NotEquals)
    else if v == 21 then Some(And) else if v == 22 then Some(Or)
    else if v == 23 then Some(Plus) else if v == 24 then Some(Minus)
    else if v == 25 then Some(Multiply) else if v == 26 then Some(Divide)
    else if v == 37 then Some(If) else if v == 28 then Some(Else)
    else if v == 29 then Some(Semicolon) else if v == 30 then Some(LeftCurly)
    else if v == 31 then Some(RightCurly) else if v == 32 then Some(While)
    else if v == 33 then Some(EOF) else None
  }

  /** Looking a kind up by its own value gives it back. */
  lemma KindOfValue(k: TokenType)
    ensures KindOf(Value(k)) == Some(k)
  {
    match k
    case Let => case Identifier => case Integer => case Float => case String =>
    case Bool => case Equals => case LeftParen => case RightParen => case Comma =>
    case Function => case Return => case GreaterThan => case GreaterEqual =>
    case LessThan => case LessEqual => case EqualsEquals => case NotEquals =>
    case And => case Or => case Plus => case Minus => case Multiply => case Divide =>
    case If => case Else => case Semicolon => case LeftCurly => case RightCurly =>
    case While => case EOF =>
  }

  /** No two members of the enum share a value. */
  lemma ValuesDistinct(a: TokenType, b: TokenType)
    ensures Value(a) == Value(b) <==> a == b
  {
    KindOfValue(a);
    KindOfValue(b);
  }

  /** The parser's loose tier: the comparison, logical and additive operators. */
  predicate InExpressionTier(k: TokenType)
  {
    k == GreaterThan || k == GreaterEqual || k == LessThan || k == LessEqual
    || k == EqualsEquals || k == NotEquals || k == And || k == Or || k == Plus || k == Minus
  }

  /** The parser's tight tier: `*` and `/` (Ermis/parser.py:296-297). */
  predicate InTermTier(k: TokenType)
  {
    k == Multiply || k == Divide
  }

  /** The loose tier is exactly what the parser's range test on enum values selects:
      `15 <= kind.value < 25` (Ermis/parser.py:318). */
  lemma ExpressionTierByValue(k: TokenType)
    ensures InExpressionTier(k) <==> 15 <= Value(k) < 25
  {
    match k
    case Let => case Identifier => case Integer => case Float => case String =>
    case Bool => case Equals => case LeftParen => case RightParen => case Comma =>
    case Function => case Return => case GreaterThan => case GreaterEqual =>
    case LessThan => case LessEqual => case EqualsEquals => case NotEquals =>
    case And => case Or => case Plus => case Minus => case Multiply => case Divide =>
    case If => case Else => case Semicolon => case LeftCurly => case RightCurly =>
    case While => case EOF =>
  }

  /** The two tiers are disjoint, and no keyword kind falls into either operator tier. */
  lemma TiersDisjoint(k: TokenType)
    ensures InTermTier(k) ==> !InExpressionTier(k)
    ensures k in {If, Else, Let, Function, Return, While, Bool} ==>
      !InExpressionTier(k) && !InTermTier(k)
  {
  }

  /** A token: its kind and its literal text, fixed at construction. */
  datatype Token = Token(kind: TokenType, text: string)

  /** The token the lexer emits at end of input. */
  const EofToken: Token := Token(EOF, "<EOF>")
}
