/**
  What the token sequence of runtime/src/frontend/lexer.cpp looks like, proved
  about the reference definition `Lexing.LexFrom` (which `Lexer.Tokenize`
  computes).
 */
module LexingProperties {
  import opened Tokens
  import opened Lexing

  /** The token's lexeme is a non-empty slice of the source starting at its offset. */
  predicate IsSlice(s: string, t: Token)
  {
    0 < |t.lexeme| && t.End() <= |s| && s[t.offset..t.End()] == t.lexeme
  }

  /** An identifier or keyword: a letter or '_' followed by the longest run of letters, digits and '_'. */
  predicate IsWord(s: string, t: Token)
    requires IsSlice(s, t)
  {
    && IsIdentStart(t.lexeme[0])
    && (forall k :: 0 <= k < |t.lexeme| ==> IsIdentChar(t.lexeme[k]))
    && (t.End() == |s| || !IsIdentChar(s[t.End()]))
  }

  /** A number: the longest run of decimal digits (no sign, fraction or exponent). */
  predicate IsDigitRun(s: string, t: Token)
    requires IsSlice(s, t)
  {
    && (forall k :: 0 <= k < |t.lexeme| ==> IsDigit(t.lexeme[k]))
    && (t.End() == |s| || !IsDigit(s[t.End()]))
  }

  predicate IsClosedString(lexeme: string)
  {
    2 <= |lexeme| && lexeme[|lexeme| - 1] == '"'
  }

  /**
    A string: an opening quote, no quote inside, and either the closing quote
    or, when there is none, everything up to the end of the input.
   */
  predicate IsStringLexeme(s: string, t: Token)
    requires IsSlice(s, t)
  {
    && t.lexeme[0] == '"'
    && (forall k :: 0 < k < |t.lexeme| - 1 ==> t.lexeme[k] != '"')
    && (IsClosedString(t.lexeme) || t.End() == |s|)
  }

  /** The shape every token other than the end-of-file token has. */
  predicate WellShaped(s: string, t: Token)
  {
    && IsSlice(s, t)
    && match t.kind
       case Identifier => IsWord(s, t) && t.lexeme !in Keywords
       case Keyword => IsWord(s, t) && t.lexeme in Keywords
       case Number => IsDigitRun(s, t)
       case String => IsStringLexeme(s, t)
       case Symbol => |t.lexeme| == 1 && t.lexeme[0] in Symbols
       case EndOfFile => false
  }

  /** Every character in [a, b) is skipped: white space or a character no token starts with. */
  predicate Skipped(s: string, a: nat, b: nat)
    requires a <= b <= |s|
  {
    forall p :: a <= p < b ==> !StartsToken(s[p])
  }

  /**
    Token `k` starts no earlier than token `k - 1` ends, and every character
    between the two is skipped.
   */
  predicate FollowsPrevious(s: string, t: seq<Token>, k: nat)
  {
    0 < k < |t| ==>
      var a, b := t[k - 1].End(), t[k].offset;
      a <= b <= |s| && Skipped(s, a, b)
  }

  /** The token scanned at a token start is well shaped and ends where `TokenEnd` says. */
  lemma ScanAtWellShaped(s: string, i: nat, origin: Location)
    requires i < |s| && StartsToken(s[i])
    ensures WellShaped(s, ScanAt(s, i, origin))
    ensures ScanAt(s, i, origin).End() == TokenEnd(s, i)
  {
    var t := ScanAt(s, i, origin);
    var j := TokenEnd(s, i);
    assert t.lexeme == s[i..j];
    assert forall k :: 0 <= k < |t.lexeme| ==> t.lexeme[k] == s[i + k];
  }

  /** The scan ends with exactly one end-of-file token, at the cursor after the whole source. */
  lemma {:induction false} LexFromEndsWithEof(s: string, i: nat, origin: Location)
    requires i <= |s|
    ensures var t := LexFrom(s, i, origin);
      && |t| > 0
      && t[|t| - 1] == EofToken(s, origin)
      && forall k :: 0 <= k < |t| - 1 ==> t[k].kind != EndOfFile
    decreases |s| - i
  {
    if i < |s| {
      if !StartsToken(s[i]) {
        LexFromEndsWithEof(s, i + 1, origin);
      } else {
        LexFromEndsWithEof(s, TokenEnd(s, i), origin);
      }
    }
  }

  /** Every token but the last is well shaped. */
  lemma {:induction false} LexFromWellShaped(s: string, i: nat, origin: Location)
    requires i <= |s|
    ensures var t := LexFrom(s, i, origin);
      forall k :: 0 <= k < |t| - 1 ==> WellShaped(s, t[k])
    decreases |s| - i
  {
    if i < |s| {
      if !StartsToken(s[i]) {
        LexFromSkip(s, i, origin);
        LexFromWellShaped(s, i + 1, origin);
      } else {
        var j := TokenEnd(s, i);
        LexFromToken(s, i, origin);
        LexFromWellShaped(s, j, origin);
        ScanAtWellShaped(s, i, origin);
        var rest := LexFrom(s, j, origin);
        var t := LexFrom(s, i, origin);
        forall k | 0 <= k < |t| - 1
          ensures WellShaped(s, t[k])
        {
          if k > 0 {
            assert t[k] == rest[k - 1];
          }
        }
      }
    }
  }

  /**
    The tokens' slices come in order without overlapping, starting at or after
    `i`, and every character before the first token or between two tokens is
    skipped.
   */
  lemma {:induction false} LexFromInOrder(s: string, i: nat, origin: Location)
    requires i <= |s|
    ensures var t := LexFrom(s, i, origin);
      && |t| > 0
      && i <= t[0].offset <= |s|
      && Skipped(s, i, t[0].offset)
      && (forall k :: 0 <= k < |t| ==> FollowsPrevious(s, t, k))
    decreases |s| - i
  {
    if i < |s| {
      if !StartsToken(s[i]) {
        LexFromSkip(s, i, origin);
        LexFromInOrder(s, i + 1, origin);
      } else {
        var j := TokenEnd(s, i);
        LexFromToken(s, i, origin);
        LexFromInOrder(s, j, origin);
        ScanAtWellShaped(s, i, origin);
        var rest := LexFrom(s, j, origin);
        var t := LexFrom(s, i, origin);
        forall k | 0 <= k < |t|
          ensures FollowsPrevious(s, t, k)
        {
          if k > 1 {
            assert FollowsPrevious(s, rest, k - 1);
            assert t[k - 1] == rest[k - 2] && t[k] == rest[k - 1];
          } else if k == 1 {
            assert t[0] == ScanAt(s, i, origin) && t[1] == rest[0];
          }
        }
      }
    }
  }

  /** Every token records the line and column of its first character. */
  lemma {:induction false} LexFromLocations(s: string, i: nat, origin: Location)
    requires i <= |s|
    ensures var t := LexFrom(s, i, origin);
      forall k :: 0 <= k < |t| ==> t[k].offset <= |s| && t[k].Start() == Walk(origin, s[..t[k].offset])
    decreases |s| - i
  {
    if i == |s| {
      assert s[..|s|] == s;
    } else if !StartsToken(s[i]) {
      LexFromSkip(s, i, origin);
      LexFromLocations(s, i + 1, origin);
    } else {
      var j := TokenEnd(s, i);
      LexFromToken(s, i, origin);
      LexFromLocations(s, j, origin);
      var rest := LexFrom(s, j, origin);
      var t := LexFrom(s, i, origin);
      assert t == [ScanAt(s, i, origin)] + rest;
      forall k | 0 <= k < |t|
        ensures t[k].offset <= |s| && t[k].Start() == Walk(origin, s[..t[k].offset])
      {
        if k > 0 {
          assert t[k] == rest[k - 1];
        }
      }
    }
  }

  /** The number of newline characters in `s`. */
  function Newlines(s: string): nat
  {
    multiset(s)['\n']
  }

  /**
    Consuming a text moves the line down once per newline; the column counts
    on from the start when there is no newline, and otherwise restarts at 1
    after the last newline.
   */
  lemma {:induction false} WalkCountsLinesAndColumns(start: Location, s: string)
    ensures Walk(start, s).line == start.line + Newlines(s)
    ensures (forall k :: 0 <= k < |s| ==> s[k] != '\n') ==> Walk(start, s).column == start.column + |s|
    ensures forall j :: 0 <= j < |s| && s[j] == '\n' && (forall k :: j < k < |s| ==> s[k] != '\n')
                        ==> Walk(start, s).column == |s| - j
    decreases |s|
  {
    if s != [] {
      var init := s[..|s| - 1];
      var c := s[|s| - 1];
      assert s == init + [c];
      assert multiset(s) == multiset(init) + multiset{c};
      WalkCountsLinesAndColumns(start, init);
      forall j | 0 <= j < |s| && s[j] == '\n' && (forall k :: j < k < |s| ==> s[k] != '\n')
        ensures Walk(start, s).column == |s| - j
      {
        if j < |s| - 1 {
          assert s[j] == init[j];
          assert forall k :: j < k < |init| ==> init[k] == s[k];
        }
      }
    }
  }

  /** A text made only of decimal digits lexes to one number token holding it, and the end-of-file token. */
  lemma DigitsLexToOneNumber(s: string, origin: Location)
    requires 0 < |s| && forall k :: 0 <= k < |s| ==> IsDigit(s[k])
    ensures Lex(s, origin) == [Token(Number, s, 0, origin.line, origin.column), EofToken(s, origin)]
  {
    assert TokenEnd(s, 0) == |s|;
    assert s[..0] == [] && s[0..|s|] == s;
    LexFromToken(s, 0, origin);
  }

  /** The sample declaration the following lemmas lex. */
  const Declaration := "var x = 5;"

  /** The last two tokens of `var x = 5;`: from the `5` on. */
  lemma DeclarationNumber(origin: Location)
    ensures var t := LexFrom(Declaration, 8, origin);
      && |t| == 3
      && t[0].kind == Number && t[0].lexeme == "5"
      && t[1].kind == Symbol && t[1].lexeme == ";"
      && t[2].kind == EndOfFile
  {
    var s := Declaration;
    assert Symbols[5] == ';';
    assert LexFrom(s, 9, origin) == [ScanAt(s, 9, origin), EofToken(s, origin)] by {
      LexFromToken(s, 9, origin);
    }
    assert RunEnd(s, 9, IsDigit) == 9;
    LexFromToken(s, 8, origin);
  }

  /** `=` and what follows it. */
  lemma DeclarationEquals(origin: Location)
    ensures LexFrom(Declaration, 6, origin) == [ScanAt(Declaration, 6, origin)] + LexFrom(Declaration, 8, origin)
    ensures ScanAt(Declaration, 6, origin).kind == Symbol && ScanAt(Declaration, 6, origin).lexeme == "="
  {
    var s := Declaration;
    assert Symbols[4] == '=';
    LexFromSkip(s, 7, origin);
    LexFromToken(s, 6, origin);
  }

  /** The name `x` and what follows it. */
  lemma DeclarationName(origin: Location)
    ensures LexFrom(Declaration, 4, origin) == [ScanAt(Declaration, 4, origin)] + LexFrom(Declaration, 6, origin)
    ensures ScanAt(Declaration, 4, origin).kind == Identifier && ScanAt(Declaration, 4, origin).lexeme == "x"
  {
    var s := Declaration;
    assert RunEnd(s, 5, IsIdentChar) == 5;
    assert s[4..5] == "x" && "x" !in Keywords;
    LexFromSkip(s, 5, origin);
    LexFromToken(s, 4, origin);
  }

  /** The keyword `var` and what follows it. */
  lemma DeclarationKeyword(origin: Location)
    ensures Lex(Declaration, origin) == [ScanAt(Declaration, 0, origin)] + LexFrom(Declaration, 4, origin)
    ensures ScanAt(Declaration, 0, origin).kind == Keyword && ScanAt(Declaration, 0, origin).lexeme == "var"
  {
    var s := Declaration;
    LexFromSkip(s, 3, origin);
    assert RunEnd(s, 3, IsIdentChar) == 3;
    LexFromToken(s, 0, origin);
    assert s[0..3] == "var";
  }

  /** The kinds and lexemes of the tokens of `var x = 5;`. */
  lemma VarDeclarationTokens(origin: Location)
    ensures var t := Lex(Declaration, origin);
      && |t| == 6
      && t[0].kind == Keyword && t[0].lexeme == "var"
      && t[1].kind == Identifier && t[1].lexeme == "x"
      && t[2].kind == Symbol && t[2].lexeme == "="
      && t[3].kind == Number && t[3].lexeme == "5"
      && t[4].kind == Symbol && t[4].lexeme == ";"
      && t[5].kind == EndOfFile
  {
    DeclarationNumber(origin);
    DeclarationEquals(origin);
    DeclarationName(origin);
    DeclarationKeyword(origin);
  }

}
