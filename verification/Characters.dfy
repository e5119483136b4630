/** Character classes that more than one part of the program uses. */
module Characters {
  predicate IsDigit(c: char) {
    '0' <= c <= '9'
  }

  /** `\s`, which is also what `trim` takes off. */
  predicate IsSpace(c: char) {
    '\U{0009}' <= c <= '\U{000D}' || c == ' ' || c == '\U{00A0}' || c == '\U{1680}' || '\U{2000}' <= c <= '\U{200A}'
    || c == '\U{2028}' || c == '\U{2029}' || c == '\U{202F}' || c == '\U{205F}' || c == '\U{3000}' || c == '\U{FEFF}'
  }
}
