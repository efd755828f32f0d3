/**
 * Character classification as the lexer uses it: Python's `str.isspace`,
 * `str.isdigit` and `str.isalnum` on one-character strings.
 */
module Chars {

  /** `str.isspace`: the characters Python classes as whitespace. */
  predicate IsSpace(c: char)
    ensures c == ' ' || c == '\t' || c == '\n' || c == '\r' ==> IsSpace(c)
    ensures IsSpace(c) ==> c != '>' && c != '"' && c != '_'
  {
    c in {'\t', '\n', '\U{B}', '\U{C}', '\r', '\U{1C}', '\U{1D}', '\U{1E}', '\U{1F}',
          ' ', '\U{85}', '\U{A0}', '\U{1680}', '\U{2028}', '\U{2029}', '\U{202F}',
          '\U{205F}', '\U{3000}'}
    || ('\U{2000}' <= c <= '\U{200A}')
  }

  /** `str.isdigit`, restricted to the ASCII digits. */
  predicate IsDigit(c: char)
    ensures IsDigit(c) ==> !IsSpace(c) && c != '"' && c != '>'
  {
    '0' <= c <= '9'
  }

  /** Letters of the Greek and Coptic block (U+0370..U+03FF) that Python calls alphabetic. */
  predicate IsGreekLetter(c: char)
  {
    ('\U{370}' <= c <= '\U{374}') || c == '\U{376}' || c == '\U{377}'
    || ('\U{37A}' <= c <= '\U{37D}') || c == '\U{37F}' || c == '\U{386}'
    || ('\U{388}' <= c <= '\U{38A}') || c == '\U{38C}' || ('\U{38E}' <= c <= '\U{3A1}')
    || ('\U{3A3}' <= c <= '\U{3F5}') || ('\U{3F7}' <= c <= '\U{3FF}')
  }

  /** `str.isalpha`, restricted to ASCII and Greek letters. */
  predicate IsAlpha(c: char)
  {
    ('a' <= c <= 'z') || ('A' <= c <= 'Z') || IsGreekLetter(c)
  }

  /** `str.isalnum`, with the same restriction. */
  predicate IsAlnum(c: char)
    ensures IsAlnum(c) ==> !IsSpace(c) && c != '"' && c != '_' && c != '>'
  {
    IsDigit(c) || IsAlpha(c)
  }

  /** The identifier character test of `collect_identifier`. */
  predicate IsIdentChar(c: char)
    ensures IsIdentChar(c) ==> !IsSpace(c) && c != '"' && c != '>'
    ensures IsDigit(c) ==> IsIdentChar(c)
  {
    IsAlnum(c) || c == '_'
  }
}
