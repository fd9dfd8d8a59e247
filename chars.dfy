/** The character predicates of include/frontend/Lexer.hpp. */
module Chars {

  /** Space, tab, carriage return and line feed. */
  predicate IsSpacing(c: char) {
    c == ' ' || c == '\t' || c == '\r' || c == '\n'
  }

  /** Written in the source as (A..Z) || (c >= 'a' || c <= 'z') || '_'; the middle disjunct
      holds for every character, so this predicate does too. */
  predicate IsWordSymbol(c: char) {
    ('A' <= c <= 'Z') || (c >= 'a' || c <= 'z') || c == '_'
  }

  /** Decimal digits and the dot. */
  predicate IsNumeric(c: char) {
    ('0' <= c <= '9') || c == '.'
  }

  /** Exactly the four ASCII blanks are spacing. */
  lemma SpacingExactly(c: char)
    ensures IsSpacing(c) <==> c in {' ', '\t', '\r', '\n'}
  {
  }

  /** Exactly the ten decimal digits and '.' are numeric. */
  lemma NumericExactly(c: char)
    ensures IsNumeric(c) <==> c in {'0', '1', '2', '3', '4', '5', '6', '7', '8', '9', '.'}
  {
  }

  /** The range test in IsWordSymbol is a tautology: every character is a word symbol. */
  lemma WordSymbolTautology(c: char)
    ensures IsWordSymbol(c)
  {
  }

  /** No character is both spacing and numeric. */
  lemma SpacingNumericDisjoint(c: char)
    ensures !(IsSpacing(c) && IsNumeric(c))
  {
  }
}
