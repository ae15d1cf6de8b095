// What every component shares: optional values and the white space the source's trim() strips.
module Basics {
  datatype Option<+T> = None | Some(value: T)

  predicate Space(c: char) {
    c == ' ' || '\U{0009}' <= c <= '\U{000D}' || c == '\U{00A0}' || c == '\U{1680}' || '\U{2000}' <= c <= '\U{200A}'
    || c == '\U{2028}' || c == '\U{2029}' || c == '\U{202F}' || c == '\U{205F}' || c == '\U{3000}' || c == '\U{FEFF}'
  }
}
