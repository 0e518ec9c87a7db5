/**
 The characters JSON texts are made of.
 */
module Tokens {
  import opened Words

  const QUOTE: u8 := '"' as int
  const ESCAPE: u8 := '\\' as int
  const COMMA: u8 := ',' as int
  const COLON: u8 := ':' as int
  const BLANK: u8 := ' ' as int
  const NEWLINE: u8 := '\n' as int
  const LBRACE: u8 := '{' as int
  const RBRACE: u8 := '}' as int
  const LBRACKET: u8 := '[' as int
  const RBRACKET: u8 := ']' as int
  const ZERO: u8 := '0' as int
  const POINT: u8 := '.' as int
  const MINUS: u8 := '-' as int

  predicate Digit(c: u8) { '0' as int <= c <= '9' as int }
}
