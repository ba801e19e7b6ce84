/**
 * The ASCII character classes that both the slug pipeline and the reading of array
 * indices rely on.
 */
module Chars {

  predicate IsAsciiUpper(c: char) {
    'A' <= c <= 'Z'
  }

  predicate IsAsciiLower(c: char) {
    'a' <= c <= 'z'
  }

  predicate IsDigit(c: char) {
    '0' <= c <= '9'
  }
}
