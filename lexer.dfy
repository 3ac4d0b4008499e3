/**
  The lexer of runtime/src/frontend/lexer.cpp.

  The reference definition `LexFrom` says, as a function of the source text,
  which tokens the scan produces from a given position; the class `Lexer` is
  the step-by-step scanner with its cursor, proved to produce exactly those
  tokens. The properties of the token sequence are proved about `LexFrom` in
  module LexingProperties.

  Each `char` of the source stands for one byte of the C++ `std::string`, and
  the character classes are those of the "C" locale.
 */
module Lexing {
  import opened Tokens

  predicate IsAlpha(c: char) { 'a' <= c <= 'z' || 'A' <= c <= 'Z' }
  predicate IsDigit(c: char) { '0' <= c <= '9' }
  predicate IsAlnum(c: char) { IsAlpha(c) || IsDigit(c) }

  /** `std::isspace`: space, and the control characters '\t', '\n', '\v', '\f', '\r'. */
  predicate IsSpace(c: char) { c == ' ' || '\t' <= c <= '\r' }

  predicate IsIdentStart(c: char) { IsAlpha(c) || c == '_' }
  predicate IsIdentChar(c: char) { IsAlnum(c) || c == '_' }
  predicate IsNotQuote(c: char) { c != '"' }

  /** The single-character symbols. */
  const Symbols: string := "+-*/=;(){}[],."

  /** The reserved words (the keyword table of lexer.hpp is taken to be just "var"). */
  const Keywords: seq<string> := ["var"]

  /** A character at which a token starts; every other character is skipped. */
  predicate StartsToken(c: char) { IsIdentStart(c) || IsDigit(c) || c == '"' || c in Symbols }

  /** How consuming one character moves the cursor. */
  function Step(loc: Location, c: char): Location
  {
    if c == '\n' then Location(loc.line + 1, 1) else Location(loc.line, loc.column + 1)
  }

  /** The cursor after consuming all of `s`, starting at `start`. */
  function Walk(start: Location, s: string): Location
    decreases |s|
  {
    if s == [] then start else Step(Walk(start, s[..|s| - 1]), s[|s| - 1])
  }

  lemma WalkSnoc(start: Location, s: string, i: nat)
    requires i < |s|
    ensures Walk(start, s[..i + 1]) == Step(Walk(start, s[..i]), s[i])
  {
    assert s[..i + 1][..i] == s[..i];
  }

  /** The end of the longest run of characters satisfying `p` that starts at `i`. */
  function RunEnd(s: string, i: nat, p: char -> bool): (j: nat)
    requires i <= |s|
    ensures i <= j <= |s|
    ensures forall k :: i <= k < j ==> p(s[k])
    ensures j == |s| || !p(s[j])
    decreases |s| - i
  {
    if i < |s| && p(s[i]) then RunEnd(s, i + 1, p) else i
  }

  /** Where the token that starts at `i` ends (maximal munch per token class). */
  function TokenEnd(s: string, i: nat): (j: nat)
    requires i < |s| && StartsToken(s[i])
    ensures i < j <= |s|
  {
    if IsIdentStart(s[i]) then RunEnd(s, i, IsIdentChar)
    else if IsDigit(s[i]) then RunEnd(s, i, IsDigit)
    else if s[i] == '"' then
      var close := RunEnd(s, i + 1, IsNotQuote);
      if close < |s| then close + 1 else close
    else i + 1
  }

  /** The kind of the token that starts at `i`. */
  function KindAt(s: string, i: nat): TokenKind
    requires i < |s| && StartsToken(s[i])
  {
    if IsIdentStart(s[i]) then (if s[i..TokenEnd(s, i)] in Keywords then Keyword else Identifier)
    else if IsDigit(s[i]) then Number
    else if s[i] == '"' then String
    else Symbol
  }

  /** The token scanned at `i` by a lexer started at `origin`. */
  function ScanAt(s: string, i: nat, origin: Location): Token
    requires i < |s| && StartsToken(s[i])
  {
    var loc := Walk(origin, s[..i]);
    Token(KindAt(s, i), s[i..TokenEnd(s, i)], i, loc.line, loc.column)
  }

  /** The end-of-file token: empty lexeme, at the cursor after the whole source. */
  function EofToken(s: string, origin: Location): Token
  {
    var loc := Walk(origin, s);
    Token(EndOfFile, "", |s|, loc.line, loc.column)
  }

  /** The tokens a scan from position `i` produces. */
  function LexFrom(s: string, i: nat, origin: Location): seq<Token>
    requires i <= |s|
    decreases |s| - i
  {
    if i == |s| then [EofToken(s, origin)]
    else if !StartsToken(s[i]) then LexFrom(s, i + 1, origin)
    else [ScanAt(s, i, origin)] + LexFrom(s, TokenEnd(s, i), origin)
  }

  /** The tokens of the whole source. */
  function Lex(s: string, origin: Location): seq<Token>
  {
    LexFrom(s, 0, origin)
  }

  lemma LexFromSkip(s: string, i: nat, origin: Location)
    requires i < |s| && !StartsToken(s[i])
    ensures LexFrom(s, i, origin) == LexFrom(s, i + 1, origin)
  {
  }

  lemma LexFromToken(s: string, i: nat, origin: Location)
    requires i < |s| && StartsToken(s[i])
    ensures LexFrom(s, i, origin) == [ScanAt(s, i, origin)] + LexFrom(s, TokenEnd(s, i), origin)
  {
  }

  lemma SpaceStartsNoToken(c: char)
    requires IsSpace(c)
    ensures !StartsToken(c)
  {
    assert c !in Symbols;
  }

  /** Skipping white space does not change what is scanned afterwards. */
  lemma {:induction false} SkipSpacesLexSame(s: string, i: nat, origin: Location)
    requires i <= |s|
    ensures LexFrom(s, RunEnd(s, i, IsSpace), origin) == LexFrom(s, i, origin)
    decreases |s| - i
  {
    if i < |s| && IsSpace(s[i]) {
      SpaceStartsNoToken(s[i]);
      SkipSpacesLexSame(s, i + 1, origin);
    }
  }

  class Lexer {
    const source: string
    /** The cursor the lexer was constructed with. */
    ghost const origin: Location
    var position: nat
    var line: nat
    var column: nat

    /** The line and column always describe the cursor after the consumed prefix. */
    ghost predicate Valid()
      reads this
    {
      position <= |source| && Location(line, column) == Walk(origin, source[..position])
    }

    constructor (source: string, line: nat, column: nat)
      ensures Valid()
      ensures this.source == source && origin == Location(line, column)
      ensures position == 0 && this.line == line && this.column == column
    {
      this.source := source;
      this.origin := Location(line, column);
      this.position := 0;
      this.line := line;
      this.column := column;
    }

    /** Whether the whole source has been consumed; under the invariant the cursor is then exactly at its end. */
    predicate IsAtEnd(): (r: bool)
      reads this
      ensures Valid() ==> (r <==> position == |source|)
      ensures !r ==> position < |source|
    {
      position >= |source|
    }

    /** The character at the cursor, or `'\0'` once the source is consumed; nothing outside the source is read. */
    function Peek(): (c: char)
      reads this
      ensures position < |source| ==> c == source[position]
      ensures position >= |source| ==> c == '\0'
    {
      if IsAtEnd() then '\0' else source[position]
    }

    /** Consumes one character, keeping the line and column up to date. */
    method Advance() returns (c: char)
      requires Valid()
      modifies this`position, this`line, this`column
      ensures Valid()
      ensures old(IsAtEnd()) ==> c == '\0' && position == old(position)
                                 && line == old(line) && column == old(column)
      ensures !old(IsAtEnd()) ==> c == source[old(position)] && position == old(position) + 1
                                  && Location(line, column) == Step(Location(old(line), old(column)), c)
    {
      if IsAtEnd() {
        return '\0';
      }
      c := source[position];
      WalkSnoc(origin, source, position);
      position := position + 1;
      if c == '\n' {
        line := line + 1;
        column := 1;
      } else {
        column := column + 1;
      }
    }

    method SkipWhiteSpace()
      requires Valid()
      modifies this`position, this`line, this`column
      ensures Valid()
      ensures position == RunEnd(source, old(position), IsSpace)
    {
      while !IsAtEnd() && IsSpace(Peek())
        invariant Valid() && old(position) <= position
        invariant RunEnd(source, position, IsSpace) == RunEnd(source, old(position), IsSpace)
        decreases |source| - position
      {
        var _ := Advance();
      }
    }

    static method IsKeyword(lexeme: string) returns (r: bool)
      ensures r <==> lexeme in Keywords
    {
      for i := 0 to |Keywords|
        invariant forall k :: 0 <= k < i ==> Keywords[k] != lexeme
      {
        if lexeme == Keywords[i] {
          return true;
        }
      }
      return false;
    }

    /** Scans an identifier or keyword: the longest run of letters, digits and '_'. */
    method ScanWord() returns (t: Token)
      requires Valid() && !IsAtEnd() && IsIdentStart(Peek())
      modifies this`position, this`line, this`column
      ensures Valid()
      ensures t == ScanAt(source, old(position), origin) && position == TokenEnd(source, old(position))
    {
      var tokenStart, tokenLine, tokenColumn := position, line, column;
      while !IsAtEnd() && IsIdentChar(Peek())
        invariant Valid() && tokenStart <= position
        invariant RunEnd(source, position, IsIdentChar) == RunEnd(source, tokenStart, IsIdentChar)
        decreases |source| - position
      {
        var _ := Advance();
      }
      var lex := source[tokenStart..position];
      var kind := Identifier;
      var isKeyword := IsKeyword(lex);
      if isKeyword {
        kind := Keyword;
      }
      t := Token(kind, lex, tokenStart, tokenLine, tokenColumn);
    }

    /** Scans a number: the longest run of decimal digits. */
    method ScanNumber() returns (t: Token)
      requires Valid() && !IsAtEnd() && IsDigit(Peek())
      modifies this`position, this`line, this`column
      ensures Valid()
      ensures t == ScanAt(source, old(position), origin) && position == TokenEnd(source, old(position))
    {
      var tokenStart, tokenLine, tokenColumn := position, line, column;
      while !IsAtEnd() && IsDigit(Peek())
        invariant Valid() && tokenStart <= position
        invariant RunEnd(source, position, IsDigit) == RunEnd(source, tokenStart, IsDigit)
        decreases |source| - position
      {
        var _ := Advance();
      }
      t := Token(Number, source[tokenStart..position], tokenStart, tokenLine, tokenColumn);
    }

    /** Scans a string: through the next quote, or to the end of input if there is none. */
    method ScanString() returns (t: Token)
      requires Valid() && !IsAtEnd() && Peek() == '"'
      modifies this`position, this`line, this`column
      ensures Valid()
      ensures t == ScanAt(source, old(position), origin) && position == TokenEnd(source, old(position))
    {
      var tokenStart, tokenLine, tokenColumn := position, line, column;
      var _ := Advance();
      while !IsAtEnd() && Peek() != '"'
        invariant Valid() && tokenStart < position
        invariant RunEnd(source, position, IsNotQuote) == RunEnd(source, tokenStart + 1, IsNotQuote)
        decreases |source| - position
      {
        var _ := Advance();
      }
      if !IsAtEnd() && Peek() == '"' {
        var _ := Advance();
      }
      t := Token(String, source[tokenStart..position], tokenStart, tokenLine, tokenColumn);
    }

    /** Scans a one-character symbol. */
    method ScanSymbol() returns (t: Token)
      requires Valid() && !IsAtEnd() && !IsIdentStart(Peek()) && !IsDigit(Peek())
      requires Peek() != '"' && Peek() in Symbols
      modifies this`position, this`line, this`column
      ensures Valid()
      ensures t == ScanAt(source, old(position), origin) && position == TokenEnd(source, old(position))
    {
      var tokenStart, tokenLine, tokenColumn := position, line, column;
      var _ := Advance();
      t := Token(Symbol, source[tokenStart..tokenStart + 1], tokenStart, tokenLine, tokenColumn);
    }

    /** Scans the token that starts at the cursor, by the class of its first character. */
    method ScanToken() returns (t: Token)
      requires Valid() && !IsAtEnd() && StartsToken(Peek())
      modifies this`position, this`line, this`column
      ensures Valid()
      ensures t == ScanAt(source, old(position), origin) && position == TokenEnd(source, old(position))
    {
      var c := Peek();
      if IsIdentStart(c) {
        t := ScanWord();
      } else if IsDigit(c) {
        t := ScanNumber();
      } else if c == '"' {
        t := ScanString();
      } else {
        t := ScanSymbol();
      }
    }

    /** Scans the rest of the source; the last token is the end-of-file token. */
    method Tokenize() returns (tokens: seq<Token>)
      requires Valid()
      modifies this`position, this`line, this`column
      ensures Valid() && position == |source|
      ensures tokens == LexFrom(source, old(position), origin)
    {
      tokens := [];
      while !IsAtEnd()
        invariant Valid()
        invariant tokens + LexFrom(source, position, origin) == LexFrom(source, old(position), origin)
        decreases |source| - position
      {
        ghost var before := position;
        SkipWhiteSpace();
        SkipSpacesLexSame(source, before, origin);
        if IsAtEnd() {
          break;
        }
        ghost var tokenStart := position;
        ghost var done := tokens;
        if !StartsToken(Peek()) {
          // Any other character is skipped
          LexFromSkip(source, tokenStart, origin);
          var _ := Advance();
          continue;
        }
        var t := ScanToken();
        LexFromToken(source, tokenStart, origin);
        tokens := tokens + [t];
        assert tokens + LexFrom(source, position, origin) == done + LexFrom(source, tokenStart, origin);
      }
      assert source[..position] == source;
      tokens := tokens + [Token(EndOfFile, "", position, line, column)];
    }
  }
}
