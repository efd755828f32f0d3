/**
 * Properties of one lexing step `NextToken` (Ermis/lexer.py): end of input is
 * sticky, whitespace and comments are invisible, and each token kind is
 * produced exactly from the characters the source's branches look at.
 */
module LexFacts {
  import opened Wrappers
  import opened Tokens
  import opened Errors
  import opened Chars
  import opened Config
  import opened Lex

  /** A cursor at or past the end of input yields `EOF` and stays where it is. */
  lemma PastEndIsEof(s: string, p: nat)
    requires p >= |s|
    ensures NextToken(s, p) == Ok(Lexed(EofToken, p))
  {
    assert RunEnd(s, p, IsSpace) == p;
    assert SkipComments(s, p) == p;
  }

  /** Once `EOF` has been returned, every further call returns `EOF` again. */
  lemma EofIsSticky(s: string, p: nat)
    requires NextToken(s, p).Ok? && NextToken(s, p).value.token.kind == EOF
    ensures var q := NextToken(s, p).value.next;
      NextToken(s, q) == Ok(Lexed(EofToken, q))
  {
    PastEndIsEof(s, NextToken(s, p).value.next);
  }

  /** Starting from a non-space character, the comment skipper stops on a character that
      is neither whitespace nor the start of a comment. */
  lemma {:induction false} SkipCommentsStops(s: string, p: nat)
    requires p < |s| ==> !IsSpace(s[p])
    ensures var q := SkipComments(s, p);
      !CommentAt(s, q) && (q < |s| ==> !IsSpace(s[q]))
    decreases |s| - p
  {
    if CommentAt(s, p) {
      RunEndFacts(s, RunEnd(s, p, NotNewline), IsSpace);
      SkipCommentsStops(s, RunEnd(s, RunEnd(s, p, NotNewline), IsSpace));
    }
  }

  /** Whitespace and comments are skipped, alternately and repeatedly: the token
      starts on a character that is neither. */
  lemma TriviaSkipped(s: string, p: nat)
    ensures var q := SkipTrivia(s, p);
      p <= q && !CommentAt(s, q) && (q < |s| ==> !IsSpace(s[q]))
  {
    RunEndFacts(s, p, IsSpace);
    SkipCommentsStops(s, RunEnd(s, p, IsSpace));
  }

  /** A whitespace character before the cursor changes nothing about the next token. */
  lemma SpaceIsInvisible(s: string, p: nat)
    requires p < |s| && IsSpace(s[p])
    ensures NextToken(s, p) == NextToken(s, p + 1)
  {
    assert RunEnd(s, p, IsSpace) == RunEnd(s, p + 1, IsSpace);
  }

  /** A comment before the cursor is invisible: lexing from its start is lexing from its
      end of line. */
  lemma CommentIsInvisible(s: string, p: nat)
    requires CommentAt(s, p)
    ensures NextToken(s, p) == NextToken(s, RunEnd(s, p, NotNewline))
  {
    assert RunEnd(s, p, IsSpace) == p;
  }

  /** A token starting with a digit is an `Integer` whose text is the maximal run of
      digits; nothing after the run, a `.` included, is consumed. */
  lemma IntegerTokens(s: string, p: nat)
    ensures var q := SkipTrivia(s, p);
      var r := NextToken(s, p);
      (r.Ok? && r.value.token.kind == Integer) <==> (q < |s| && IsDigit(s[q]))
    ensures var q := SkipTrivia(s, p);
      var r := NextToken(s, p);
      q < |s| && IsDigit(s[q]) ==>
        var w := r.value.token.text;
        && r.value.next == q + |w|
        && w == s[q..q + |w|]
        && |w| > 0
        && (forall i :: 0 <= i < |w| ==> IsDigit(w[i]))
        && (q + |w| == |s| || !IsDigit(s[q + |w|]))
  {
    var q := SkipTrivia(s, p);
    if q < |s| && !IsDigit(s[q]) {
      NoIntegerOtherwise(s, q);
    } else if q < |s| {
      RunEndFacts(s, q, IsDigit);
    }
  }

  /** Only the digit branch produces `Integer` tokens. */
  lemma NoIntegerOtherwise(s: string, q: nat)
    requires q < |s| && !IsDigit(s[q])
    ensures TokenAt(s, q).Ok? ==> TokenAt(s, q).value.token.kind != Integer
  {
    var c := s[q];
    if c == '"' {
    } else if IsAlnum(c) {
      var e := RunEnd(s, q, IsIdentChar);
      assert forall w :: w in Keywords ==> Keywords[w] != Integer;
      assert CheckKeyword(s[q..e]) != Integer;
    } else if q + 1 < |s| && TwoCharKind(c, s[q + 1]).Some? {
    } else {
      var k := PunctuationKind(c);
      assert k.Some? ==> (c, k.value) in Punctuation;
    }
  }

  /** No call ever produces a `Float` token: the lexer has no decimal-point branch. */
  lemma NeverFloat(s: string, p: nat)
    ensures NextToken(s, p).Ok? ==> NextToken(s, p).value.token.kind != Float
  {
    var q := SkipTrivia(s, p);
    if q < |s| {
      TokenNeverFloat(s, q);
    }
  }

  /** No branch of the token dispatch yields `Float`. */
  lemma TokenNeverFloat(s: string, q: nat)
    requires q < |s|
    ensures TokenAt(s, q).Ok? ==> TokenAt(s, q).value.token.kind != Float
  {
    var c := s[q];
    if IsDigit(c) || c == '"' {
    } else if IsAlnum(c) {
      var e := RunEnd(s, q, IsIdentChar);
      assert forall w :: w in Keywords ==> Keywords[w] != Float;
      assert CheckKeyword(s[q..e]) != Float;
    } else if q + 1 < |s| && TwoCharKind(c, s[q + 1]).Some? {
    } else {
      var k := PunctuationKind(c);
      assert k.Some? ==> (c, k.value) in Punctuation;
    }
  }

  /** A string token holds exactly the characters between the quotes, with no escape
      processing; an unterminated string reads to the end of input. */
  lemma StringTokens(s: string, p: nat)
    ensures var q := SkipTrivia(s, p);
      q < |s| && s[q] == '"' ==>
        var r := NextToken(s, p);
        var e := r.value.next - 1;
        && r.Ok? && r.value.token.kind == String
        && q < e <= |s|
        && r.value.token.text == s[q + 1..e]
        && (forall i :: q < i < e ==> s[i] != '"')
        && (e == |s| || s[e] == '"')
  {
    var q := SkipTrivia(s, p);
    if q < |s| && s[q] == '"' {
      RunEndFacts(s, q + 1, NotQuote);
    }
  }

  /** A token starting with a letter is the maximal run of letters, digits and
      underscores, classified by the keyword table. */
  lemma IdentifierTokens(s: string, p: nat)
    ensures var q := SkipTrivia(s, p);
      q < |s| && IsAlpha(s[q]) && !IsDigit(s[q]) ==>
        var r := NextToken(s, p);
        var w := r.value.token.text;
        && r.Ok? && r.value.next == q + |w|
        && w == s[q..q + |w|]
        && (forall i :: 0 <= i < |w| ==> IsIdentChar(w[i]))
        && (q + |w| == |s| || !IsIdentChar(s[q + |w|]))
        && r.value.token.kind == (if w in Keywords then Keywords[w] else Identifier)
  {
    var q := SkipTrivia(s, p);
    if q < |s| && IsAlpha(s[q]) && !IsDigit(s[q]) {
      IdentifierAt(s, q);
      RunEndFacts(s, q, IsIdentChar);
    }
  }

  /** At a letter, the lexer takes the identifier branch. */
  lemma IdentifierAt(s: string, q: nat)
    requires q < |s| && IsAlpha(s[q]) && !IsDigit(s[q])
    ensures var e := RunEnd(s, q, IsIdentChar);
      TokenAt(s, q) == Ok(Lexed(Token(CheckKeyword(s[q..e]), s[q..e]), e))
  {
    assert s[q] != '"';
  }

  /** The lexical error is raised exactly for a character that no branch accepts, and it
      names that character. */
  lemma UnexpectedCharacter(s: string, p: nat)
    ensures var q := SkipTrivia(s, p);
      NextToken(s, p).Err? <==>
        && q < |s|
        && !IsAlnum(s[q]) && s[q] != '"'
        && !(q + 1 < |s| && TwoCharKind(s[q], s[q + 1]).Some?)
        && (forall i :: 0 <= i < |Punctuation| ==> Punctuation[i].0 != s[q])
    ensures NextToken(s, p).Err? ==> NextToken(s, p).error == UnexpectedToken(s[SkipTrivia(s, p)])
  {
    var q := SkipTrivia(s, p);
    if q < |s| {
      FirstMatchNone(Punctuation, s[q]);
    }
  }

  /** A run that satisfies `cond` all the way to the end of input ends there. */
  lemma {:induction false} RunToEnd(s: string, p: nat, cond: char -> bool)
    requires p <= |s|
    requires forall i :: p <= i < |s| ==> cond(s[i])
    ensures RunEnd(s, p, cond) == |s|
    decreases |s| - p
  {
    if p < |s| {
      RunToEnd(s, p + 1, cond);
    }
  }

  /** Every keyword, written alone, lexes to its own kind: it is spelled with identifier
      characters only and starts with a letter. */
  lemma KeywordsLex(w: string)
    requires w in Keywords
    ensures NextToken(w, 0) == Ok(Lexed(Token(Keywords[w], w), |w|))
  {
    assert forall c :: c in w ==> IsAlpha(c);
    assert w[0] in w;
    assert !IsSpace(w[0]) && !IsDigit(w[0]);
    assert RunEnd(w, 0, IsSpace) == 0;
    assert SkipComments(w, 0) == 0;
    forall i | 0 <= i < |w| ensures IsIdentChar(w[i]) {
      assert w[i] in w;
    }
    RunToEnd(w, 0, IsIdentChar);
    assert w[0..|w|] == w;
  }
}
