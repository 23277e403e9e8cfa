/**
  Characters as the scanners and recognisers see them. Python's `str.isspace`,
  `isdigit`, `isalpha` and `isalnum` are restricted here to their ASCII meaning.
*/
module Chars {

  /** The character most recently read, or the end-of-input sentinel (the empty string in the source). */
  datatype Ch = Char(c: char) | EndCh

  /** ASCII `isspace`: tab, newline, vertical tab, form feed, carriage return, the four
      separators 0x1C-0x1F, and the space. */
  predicate IsSpace(c: char) {
    c == ' ' || 9 <= c as int <= 13 || 28 <= c as int <= 31
  }

  predicate IsDigit(c: char) {
    '0' <= c <= '9'
  }

  predicate IsAlpha(c: char) {
    'a' <= c <= 'z' || 'A' <= c <= 'Z'
  }

  /** A character that may start a name: a letter or an underscore. */
  predicate IsWordStart(c: char) {
    IsAlpha(c) || c == '_'
  }

  /** A character that may continue a name: a letter, a digit or an underscore. */
  predicate IsWordChar(c: char) {
    IsAlpha(c) || IsDigit(c) || c == '_'
  }

  /** The text a `Ch` stands for: one character, or the empty string at the end. */
  function ChText(ch: Ch): (s: string)
    ensures |s| <= 1
    ensures s == "" <==> ch == EndCh
    ensures ch.Char? ==> s[0] == ch.c
  {
    match ch
    case Char(c) => [c]
    case EndCh => ""
  }
}
