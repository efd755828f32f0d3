/**
 * The lexer (Ermis/lexer.py).
 *
 * `NextToken(s, p)` is the meaning of one call of `get_next_token` made with the
 * cursor at `p`: the token produced and where the cursor ends.  The class
 * `Lexer` is the cursor itself, each of its methods proved to move the cursor
 * exactly as the functions below say.  Comment skipping, the lookahead `peek`
 * and the two-character operators follow the evidently intended behaviour;
 * the code as written is modelled in module AsWritten.
 */
module Lex {
  import opened Wrappers
  import opened Tokens
  import opened Errors
  import opened Chars
  import opened Config

  /** `current_char` for a cursor at `p`: `None` exactly when `p` is past the last index. */
  function CharAt(s: string, p: nat): (r: Option<char>)
    ensures r.None? <==> p > |s| - 1
    ensures r.Some? ==> r.value == s[p]
  {
    if p < |s| then Some(s[p]) else None
  }

  predicate NotQuote(c: char) { c != '"' }

  predicate NotNewline(c: char) { c != '\n' }

  /** Where a maximal run of characters satisfying `cond`, starting at `p`, ends. */
  function RunEnd(s: string, p: nat, cond: char -> bool): (q: nat)
    ensures p <= q
    ensures p <= |s| ==> q <= |s|
    decreases |s| - p
  {
    if p < |s| && cond(s[p]) then RunEnd(s, p + 1, cond) else p
  }

  /** The run is maximal: every character in it satisfies `cond`, and the one after it
      does not. */
  lemma {:induction false} RunEndFacts(s: string, p: nat, cond: char -> bool)
    ensures forall i :: p <= i < RunEnd(s, p, cond) ==> i < |s| && cond(s[i])
    ensures RunEnd(s, p, cond) < |s| ==> !cond(s[RunEnd(s, p, cond)])
    decreases |s| - p
  {
    var q := RunEnd(s, p, cond);
    if p < |s| && cond(s[p]) {
      assert q == RunEnd(s, p + 1, cond);
      RunEndFacts(s, p + 1, cond);
      forall i | p <= i < q
        ensures i < |s| && cond(s[i])
      {
        if i == p {
        } else {
          assert p + 1 <= i < RunEnd(s, p + 1, cond);
        }
      }
    } else {
      assert q == p;
    }
  }

  /** A comment starts with two consecutive `>` characters. */
  predicate CommentAt(s: string, p: nat)
    ensures CommentAt(s, p) <==> CharAt(s, p) == Some('>') && CharAt(s, p + 1) == Some('>')
  {
    p + 1 < |s| && s[p] == '>' && s[p + 1] == '>'
  }

  /** `skip_comment`: each comment runs to its newline (or to the end of input), then
      whitespace is skipped, and so on while another comment follows. */
  function SkipComments(s: string, p: nat): (q: nat)
    ensures p <= q
    ensures p <= |s| ==> q <= |s|
    decreases |s| - p
  {
    if CommentAt(s, p) then SkipComments(s, RunEnd(s, RunEnd(s, p, NotNewline), IsSpace))
    else p
  }

  /** `skip_whitespace` followed by `skip_comment`, as at the start of `get_next_token`. */
  function SkipTrivia(s: string, p: nat): (q: nat)
    ensures p <= q
    ensures p <= |s| ==> q <= |s|
  {
    SkipComments(s, RunEnd(s, p, IsSpace))
  }

  /** `check_keyword`: a keyword's own kind, otherwise `Identifier`. */
  function CheckKeyword(text: string): (k: TokenType)
    ensures text in Keywords ==> k == Keywords[text]
    ensures text !in Keywords ==> k == Identifier
  {
    if text in Keywords then Keywords[text] else Identifier
  }

  /** The two-character operators recognised by looking one character ahead. */
  function TwoCharKind(a: char, b: char): (r: Option<TokenType>)
    ensures r.Some? <==> b == '=' && a in {'=', '!', '>', '<'}
  {
    if b != '=' then None
    else if a == '=' then Some(EqualsEquals)
    else if a == '!' then Some(NotEquals)
    else if a == '>' then Some(GreaterEqual)
    else if a == '<' then Some(LessEqual)
    else None
  }

  /** A token and the cursor position just after it. */
  datatype Lexed = Lexed(token: Token, next: nat)

  /** One call of `get_next_token` with the cursor at `p`. */
  function NextToken(s: string, p: nat): (r: Result<Lexed>)
    ensures r.Ok? ==> p <= r.value.next
    ensures r.Ok? && r.value.token.kind != EOF ==> p < |s| && p < r.value.next
    ensures r.Ok? && r.value.token.kind == EOF ==> r.value.token == EofToken && |s| <= r.value.next
  {
    var q := SkipTrivia(s, p);
    if q >= |s| then Ok(Lexed(EofToken, q)) else TokenAt(s, q)
  }

  /** The token that starts at `q`, once whitespace and comments are skipped. */
  function TokenAt(s: string, q: nat): (r: Result<Lexed>)
    requires q < |s|
    ensures r.Ok? ==> q < r.value.next && r.value.token.kind != EOF
  {
    var c := s[q];
    if IsDigit(c) then
      var e := RunEnd(s, q, IsDigit);
      Ok(Lexed(Token(Integer, s[q..e]), e))
    else if c == '"' then
      var e := RunEnd(s, q + 1, NotQuote);
      Ok(Lexed(Token(String, s[q + 1..e]), e + 1))
    else if IsAlnum(c) then
      var e := RunEnd(s, q, IsIdentChar);
      Ok(Lexed(Token(CheckKeyword(s[q..e]), s[q..e]), e))
    else if q + 1 < |s| && TwoCharKind(c, s[q + 1]).Some? then
      Ok(Lexed(Token(TwoCharKind(c, s[q + 1]).value, s[q..q + 2]), q + 2))
    else
      PunctuationToken(c, q)
  }

  /** A single punctuation character at `q`, or the lexical error for `c`. */
  function PunctuationToken(c: char, q: nat): (r: Result<Lexed>)
    ensures r.Ok? ==> r.value.next == q + 1 && r.value.token.kind != EOF
    ensures r.Err? ==> r.error == UnexpectedToken(c)
  {
    match PunctuationKind(c)
    case Some(k) => Ok(Lexed(Token(k, [c]), q + 1))
    case None => Err(UnexpectedToken(c))
  }

  /** The token part of a lexing step. */
  function TokenOf(r: Result<Lexed>): Result<Token>
  {
    match r
    case Ok(l) => Ok(l.token)
    case Err(e) => Err(e)
  }

  /** The source text and a cursor over it. */
  class Lexer {
    const source: string
    var pos: nat
    var current: Option<char>

    ghost predicate Valid()
      reads this
    {
      current == CharAt(source, pos)
    }

    /** Starts at the first character; an empty source starts at end of input. */
    constructor (source: string)
      ensures Valid() && this.source == source && pos == 0
    {
      this.source := source;
      pos := 0;
      current := CharAt(source, 0);
    }

    /** `has_reached_end`. */
    predicate HasReachedEnd()
      reads this
      ensures HasReachedEnd() <==> CharAt(source, pos).None?
    {
      pos > |source| - 1
    }

    /** `advance`: one step forward; `current` becomes `None` past the last index. */
    method Advance()
      requires Valid()
      modifies this
      ensures Valid() && pos == old(pos) + 1
    {
      pos := pos + 1;
      if HasReachedEnd() {
        current := None;
      } else {
        current := Some(source[pos]);
      }
    }

    /** `peek`: the character after the current one, `None` past the end. */
    function Peek(): (r: Option<char>)
      reads this
      ensures r == CharAt(source, pos + 1)
    {
      if pos + 1 < |source| then Some(source[pos + 1]) else None
    }

    /** `skip_whitespace`. */
    method SkipWhitespace()
      requires Valid()
      modifies this
      ensures Valid() && pos == RunEnd(source, old(pos), IsSpace)
    {
      while current.Some? && IsSpace(current.value)
        invariant Valid() && old(pos) <= pos
        invariant RunEnd(source, pos, IsSpace) == RunEnd(source, old(pos), IsSpace)
        decreases |source| - pos
      {
        Advance();
      }
    }

    /** `skip_comment`: the loop stops at a newline or at the end of input. */
    method SkipComment()
      requires Valid()
      modifies this
      ensures Valid() && pos == SkipComments(source, old(pos))
      decreases |source| - pos
    {
      if current == Some('>') && Peek() == Some('>') {
        while current.Some? && current.value != '\n'
          invariant Valid() && old(pos) <= pos
          invariant RunEnd(source, pos, NotNewline) == RunEnd(source, old(pos), NotNewline)
          decreases |source| - pos
        {
          Advance();
        }
        SkipWhitespace();
        SkipComment();
      }
    }

    /** `advance_token`: a token of the current character, then one step forward. */
    method AdvanceToken(kind: TokenType) returns (t: Token)
      requires Valid() && current.Some?
      modifies this
      ensures Valid() && pos == old(pos) + 1
      ensures t == Token(kind, [old(current).value])
    {
      var value := current.value;
      Advance();
      t := Token(kind, [value]);
    }

    /** `collect_sequence`: the maximal run of characters satisfying `condition`.
        Every caller starts it inside the source or at its very end. */
    method CollectSequence(condition: char -> bool, kind: TokenType) returns (t: Token)
      requires Valid() && pos <= |source|
      modifies this
      ensures Valid() && pos == RunEnd(source, old(pos), condition)
      ensures t == Token(kind, source[old(pos)..pos])
    {
      var result := "";
      while current.Some? && condition(current.value)
        invariant Valid() && old(pos) <= pos <= |source|
        invariant RunEnd(source, pos, condition) == RunEnd(source, old(pos), condition)
        invariant result == source[old(pos)..pos]
        decreases |source| - pos
      {
        result := result + [current.value];
        Advance();
      }
      t := Token(kind, result);
    }

    /** `collect_string`: skips the opening quote, takes everything up to the next quote
        (or to the end of input), then steps over the closing quote. */
    method CollectString() returns (t: Token)
      requires Valid() && current == Some('"')
      modifies this
      ensures Valid()
      ensures var e := RunEnd(source, old(pos) + 1, NotQuote);
        pos == e + 1 && t == Token(String, source[old(pos) + 1..e])
    {
      Advance();
      t := CollectSequence(NotQuote, String);
      Advance();
    }

    /** `collect_identifier`: the maximal identifier run, classified by `check_keyword`. */
    method CollectIdentifier() returns (t: Token)
      requires Valid() && current.Some?
      modifies this
      ensures Valid() && pos == RunEnd(source, old(pos), IsIdentChar)
      ensures t == Token(CheckKeyword(source[old(pos)..pos]), source[old(pos)..pos])
    {
      t := CollectSequence(IsIdentChar, Identifier);
      t := Token(CheckKeyword(t.text), t.text);
    }

    /** `get_next_token`. */
    method GetNextToken() returns (r: Result<Token>)
      requires Valid()
      modifies this
      ensures Valid()
      ensures r == TokenOf(NextToken(source, old(pos)))
      ensures r.Ok? ==> pos == NextToken(source, old(pos)).value.next
    {
      SkipWhitespace();
      SkipComment();
      if current.Some? {
        r := ReadToken();
      } else {
        r := Ok(EofToken);
      }
    }

    /** The dispatch of `get_next_token` on a current character that is not trivia. */
    method ReadToken() returns (r: Result<Token>)
      requires Valid() && current.Some?
      modifies this
      ensures Valid()
      ensures r == TokenOf(TokenAt(source, old(pos)))
      ensures r.Ok? ==> pos == TokenAt(source, old(pos)).value.next
    {
      var c := current.value;
      var t: Token;
      if IsDigit(c) {
        t := CollectSequence(IsDigit, Integer);
        return Ok(t);
      }
      if c == '"' {
        t := CollectString();
        return Ok(t);
      }
      if IsAlnum(c) {
        t := CollectIdentifier();
        return Ok(t);
      }
      var ahead := Peek();
      if ahead.Some? && TwoCharKind(c, ahead.value).Some? {
        var kind := TwoCharKind(c, ahead.value).value;
        Advance();
        t := AdvanceToken(kind);
        assert [c] + t.text == source[old(pos)..old(pos) + 2];
        return Ok(Token(kind, [c] + t.text));
      }
      r := ReadPunctuation();
    }

    /** The scan of the punctuation table, front to back, that ends `get_next_token`. */
    method ReadPunctuation() returns (r: Result<Token>)
      requires Valid() && current.Some?
      modifies this
      ensures Valid()
      ensures r == TokenOf(PunctuationToken(old(current).value, old(pos)))
      ensures r.Ok? ==> pos == old(pos) + 1
    {
      var c := current.value;
      var i := 0;
      while i < |Punctuation|
        invariant 0 <= i <= |Punctuation|
        invariant FirstMatch(Punctuation[i..], c) == PunctuationKind(c)
      {
        if c == Punctuation[i].0 {
          var t := AdvanceToken(Punctuation[i].1);
          return Ok(t);
        }
        i := i + 1;
      }
      return Err(UnexpectedToken(c));
    }
  }
}
