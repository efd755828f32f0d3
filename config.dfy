/**
 * The lexer's two lookup tables (Ermis/config.py): single-character
 * punctuation, in the dictionary's insertion order, and the Greek keywords.
 */
module Config {
  import opened Wrappers
  import opened Tokens

  /** `tokens`: scanned front to back by the lexer, first match wins. */
  const Punctuation: seq<(char, TokenType)> := [
    ('=', Equals), ('(', LeftParen), (')', RightParen), ('+', Plus), ('-', Minus),
    ('*', Multiply), ('/', Divide), (';', Semicolon), (',', Comma),
    ('>', GreaterThan), ('<', LessThan), ('{', LeftCurly), ('}', RightCurly)
  ]

  /** The canonical spelling of true; a boolean literal is true exactly when spelled so. */
  const TrueWord: string := "Αληθές"
  const FalseWord: string := "Ψευδές"

  /** `keywords`. */
  const Keywords: map<string, TokenType> := map[
    "έστω" := Let,
    "συνάρτηση" := Function,
    "επέστρεψε" := Return,
    TrueWord := Bool,
    FalseWord := Bool,
    "εάν" := If,
    "αλλιώς" := Else,
    "όσο" := While,
    "και" := And,
    "ή" := Or
  ]

  /** The kind of the first table entry whose key is `c`. */
  function FirstMatch(table: seq<(char, TokenType)>, c: char): (r: Option<TokenType>)
    ensures r.Some? ==> (c, r.value) in table
  {
    if table == [] then None
    else if table[0].0 == c then Some(table[0].1)
    else
      var r := FirstMatch(table[1..], c);
      assert forall p :: p in table <==> p == table[0] || p in table[1..];
      r
  }

  /** The punctuation kind of `c`, if it has one. */
  function PunctuationKind(c: char): (r: Option<TokenType>)
    ensures r.Some? ==> (c, r.value) in Punctuation
    ensures r.None? ==> forall i :: 0 <= i < |Punctuation| ==> Punctuation[i].0 != c
  {
    FirstMatchNone(Punctuation, c);
    FirstMatch(Punctuation, c)
  }

  /** The table has 13 entries with pairwise distinct keys and pairwise distinct kinds. */
  lemma PunctuationDistinct()
    ensures |Punctuation| == 13
    ensures forall i, j :: 0 <= i < j < |Punctuation| ==>
      Punctuation[i].0 != Punctuation[j].0 && Punctuation[i].1 != Punctuation[j].1
  {
  }

  /** `FirstMatch` finds nothing exactly when no entry has key `c`. */
  lemma {:induction false} FirstMatchNone(table: seq<(char, TokenType)>, c: char)
    ensures FirstMatch(table, c).None? <==> forall i :: 0 <= i < |table| ==> table[i].0 != c
  {
    if table != [] && table[0].0 != c {
      FirstMatchNone(table[1..], c);
      assert forall i :: 0 < i < |table| ==> table[i] == table[1..][i - 1];
    }
  }

  /** With distinct keys, the entry whose key is `c` is the one `FirstMatch` finds. */
  lemma {:induction false} FirstMatchUnique(table: seq<(char, TokenType)>, c: char, i: nat)
    requires i < |table| && table[i].0 == c
    requires forall j, k :: 0 <= j < k < |table| ==> table[j].0 != table[k].0
    ensures FirstMatch(table, c) == Some(table[i].1)
  {
    if i > 0 {
      FirstMatchUnique(table[1..], c, i - 1);
    }
  }

  /** Because keys are distinct, the first match is the only match. */
  lemma PunctuationKindUnique(c: char, i: nat)
    requires i < |Punctuation| && Punctuation[i].0 == c
    ensures PunctuationKind(c) == Some(Punctuation[i].1)
  {
    PunctuationDistinct();
    FirstMatchUnique(Punctuation, c, i);
  }

  /** `!` and the quote are not punctuation, and no operator kind above `-` is either. */
  lemma PunctuationOmits()
    ensures PunctuationKind('!').None? && PunctuationKind('"').None?
    ensures forall c :: PunctuationKind(c) != Some(And) && PunctuationKind(c) != Some(Or)
  {
    forall c ensures PunctuationKind(c) != Some(And) && PunctuationKind(c) != Some(Or) {
      var r := PunctuationKind(c);
      if r.Some? {
        assert (c, r.value) in Punctuation;
      }
    }
    assert !exists k :: ('!', k) in Punctuation;
    assert !exists k :: ('"', k) in Punctuation;
  }

  /** Both boolean spellings are `Bool` keywords; `και` and `ή` are the logical operators. */
  lemma KeywordFacts()
    ensures Keywords[TrueWord] == Bool && Keywords[FalseWord] == Bool
    ensures TrueWord != FalseWord
    ensures Keywords["και"] == And && Keywords["ή"] == Or
  {
  }

  /** No keyword is spelled like a punctuation character, so classification is unambiguous. */
  lemma KeywordsNotPunctuation(w: string)
    requires w in Keywords
    ensures |w| != 1 || PunctuationKind(w[0]).None?
  {
  }
}
