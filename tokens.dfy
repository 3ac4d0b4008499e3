/**
  The token model that the lexer produces and the parser consumes.
  The header that declares it (token.hpp) is not part of this model; the
  fields below are the ones lexer.cpp and parser.cpp use.
 */
module Tokens {
  datatype TokenKind = Identifier | Keyword | Number | String | Symbol | EndOfFile

  /** A line and column of the scan cursor. */
  datatype Location = Location(line: nat, column: nat)

  /**
    `lexeme` is an owned copy of the source slice the token was scanned from and
    `offset` is the index in the source where that slice starts (the position a
    `string_view` into the source points at).
   */
  datatype Token = Token(kind: TokenKind, lexeme: string, offset: nat, line: nat, column: nat)
  {
    /** The index just past the token's slice. */
    function End(): nat { offset + |lexeme| }

    /** Where the token's first character is. */
    function Start(): Location { Location(line, column) }
  }
}
