/** String helpers shared by the lexer and by the reader of rendered text. */
module Strings {

  /** `s.starts_with(p)`: the first |p| characters of `s` are exactly `p`. */
  predicate StartsWith(s: string, p: string)
  {
    |p| <= |s| && s[..|p|] == p
  }
}
