/** The two character classes the lexer is built on (helper_functions.cpp). */
module Chars {

  /** An ASCII letter: the only characters a function name may contain; no letter is a digit, a blank or the terminator. */
  predicate IsCharacter(c: char)
    ensures IsCharacter(c) ==> !IsDigit(c) && !IsBlank(c) && c != '\0'
  {
    'A' <= c <= 'Z' || 'a' <= c <= 'z'
  }

  /** An ASCII decimal digit; none is a blank, a '-', a '.' or the terminator. */
  predicate IsDigit(c: char)
    ensures IsDigit(c) ==> !IsBlank(c) && c != '-' && c != '.' && c != '\0'
  {
    '0' <= c <= '9'
  }

  /** A blank the lexer skips: a space or a tab. */
  predicate IsBlank(c: char)
    ensures IsBlank(c) ==> c != '\0'
  {
    c == ' ' || c == '\t'
  }

  /** The source's `*it - '0'`, taken on the character's code. */
  function DigitValue(c: char): (d: int)
    ensures IsDigit(c) ==> 0 <= d <= 9
    ensures IsDigit(c) && d == 0 ==> c == '0'
  {
    c as int - '0' as int
  }

  /** Letters are exactly the two ASCII code ranges 65..90 and 97..122. */
  lemma CharacterCodes(c: char)
    ensures IsCharacter(c) <==> (65 <= c as int <= 90 || 97 <= c as int <= 122)
  {
  }

  /** Digits are exactly the ASCII codes 48..57. */
  lemma DigitCodes(c: char)
    ensures IsDigit(c) <==> 48 <= c as int <= 57
  {
  }

  /** No character is both a letter and a digit. */
  lemma LettersAreNotDigits(c: char)
    ensures !(IsCharacter(c) && IsDigit(c))
  {
  }

  /** Blanks, '-', '.', '_' and '#' are neither letters nor digits. */
  lemma PunctuationIsNeither()
    ensures forall c :: c in {' ', '\t', '-', '.', '_', '#'} ==> !IsCharacter(c) && !IsDigit(c)
  {
  }
}
