/**
  The grammar that runtime/src/frontend/parser.cpp accepts, proved about the
  reference definition in module Parsing: which token sequences fail and with
  which message, what each production builds, and that the programs the
  parser builds are exactly those that a printer back to tokens can write
  (parsing the printed tokens gives the program back).
 */
module ParsingProperties {
  import opened Common
  import opened Tokens
  import opened Ast
  import opened Parsing

  // ----- check and match -----

  /** With the default empty lexeme `check` tests the kind only; otherwise the lexeme must be equal too. */
  lemma CheckTestsKindAndLexeme(ts: seq<Token>, i: nat, kind: TokenKind, lexeme: string)
    requires i < |ts|
    ensures CheckAt(ts, i, kind) <==> !AtEndAt(ts, i) && ts[i].kind == kind
    ensures lexeme != "" ==>
      (CheckAt(ts, i, kind, lexeme) <==> !AtEndAt(ts, i) && ts[i].kind == kind && ts[i].lexeme == lexeme)
  {
  }

  // ----- syntax errors -----

  /** After `var` the next token must be an identifier; a keyword or anything else is a syntax error. */
  lemma {:induction false} VarNeedsIdentifier(ts: seq<Token>, i: nat)
    requires ValidTokens(ts) && IsCursor(ts, i)
    requires CheckAt(ts, i, Keyword, "var") && ts[i + 1].kind != Identifier
    ensures StatementAt(ts, i) == Failed(VarNameMessage)
    ensures ParseFrom(ts, i) == Err(VarNameMessage)
  {
  }

  /** A token that cannot start an expression (a string, a symbol, the end of input) is a syntax error. */
  lemma {:induction false} NonExpressionFails(ts: seq<Token>, i: nat)
    requires ValidTokens(ts) && IsCursor(ts, i)
    requires ts[i].kind in {String, Symbol, EndOfFile}
    ensures PrimaryAt(ts, i) == Failed(ExpressionMessage + ts[i].lexeme)
    ensures ts[i].kind != EndOfFile ==> ParseFrom(ts, i) == Err(ExpressionMessage + ts[i].lexeme)
  {
  }

  /** A name and `(` followed by anything but a number or a name (`print()`, `print("a")`) is a syntax error. */
  lemma {:induction false} CallArgumentMustBeSimple(ts: seq<Token>, i: nat)
    requires ValidTokens(ts) && IsCursor(ts, i)
    requires ts[i].kind in {Identifier, Keyword} && ts[i + 1].kind == Symbol && ts[i + 1].lexeme == "("
    requires ts[i + 2].kind !in {Number, Identifier, Keyword}
    ensures PrimaryAt(ts, i) == Failed(CallArgumentMessage)
  {
  }

  /**
    A call's one argument must be followed by `)`; so `print(1,2)` and
    `print(f(1))` are syntax errors.
   */
  lemma {:induction false} CallNeedsCloseParen(ts: seq<Token>, i: nat)
    requires ValidTokens(ts) && IsCursor(ts, i)
    requires ts[i].kind in {Identifier, Keyword} && ts[i + 1].kind == Symbol && ts[i + 1].lexeme == "("
    requires ts[i + 2].kind in {Number, Identifier, Keyword}
    requires !(ts[i + 3].kind == Symbol && ts[i + 3].lexeme == ")")
    ensures PrimaryAt(ts, i) == Failed(CloseParenMessage)
  {
    assert IsCursor(ts, i + 3);
  }

  /** A syntax error in any statement makes the whole parse fail with it: nothing of the program is kept. */
  lemma {:induction false} ErrorAbortsParse(ts: seq<Token>, i: nat, j: nat)
    requires ValidTokens(ts) && IsCursor(ts, i) && i <= j
    requires Reaches(ts, i, j) && !AtEndAt(ts, j) && StatementAt(ts, j).Failed?
    ensures ParseFrom(ts, i) == Err(StatementAt(ts, j).message)
    decreases j - i
  {
    if i < j {
      var s := StatementAt(ts, i);
      ErrorAbortsParse(ts, s.next, j);
    }
  }

  /** The parse that starts at `i` gets to a statement that starts at `j`. */
  ghost predicate Reaches(ts: seq<Token>, i: nat, j: nat)
    requires ValidTokens(ts) && IsCursor(ts, i)
    ensures Reaches(ts, i, j) ==> IsCursor(ts, j)
    decreases j - i
  {
    if i == j then true
    else if i > j || AtEndAt(ts, i) then false
    else match StatementAt(ts, i)
      case Failed(_) => false
      case Parsed(_, n) => Reaches(ts, n, j)
  }

  // ----- what each production builds -----

  /** A number token gives its value; a name not followed by `(` gives a variable of that name. */
  lemma {:induction false} PrimaryOfOneToken(ts: seq<Token>, i: nat)
    requires ValidTokens(ts) && IsCursor(ts, i)
    ensures ts[i].kind == Number ==>
      PrimaryAt(ts, i) == Parsed(Literal(NumberValue(DigitsValue(ts[i].lexeme))), i + 1)
    ensures ts[i].kind in {Identifier, Keyword} && !(ts[i + 1].kind == Symbol && ts[i + 1].lexeme == "(") ==>
      PrimaryAt(ts, i) == Parsed(Variable(ts[i].lexeme), i + 1)
  {
  }

  /**
    A declaration has an initializer exactly when `=` follows the name, and
    at most one `;` ends it.
   */
  lemma {:induction false} VarDeclarationShape(ts: seq<Token>, i: nat)
    requires ValidTokens(ts) && IsCursor(ts, i)
    requires VarDeclarationAt(ts, i).Parsed?
    ensures var r := VarDeclarationAt(ts, i);
      && ts[i].kind == Identifier
      && r.value == VarDecl(ts[i].lexeme, r.value.initializer)
      && (r.value.initializer.Some? <==> CheckAt(ts, i + 1, Symbol, "="))
      && (r.value.initializer.None? ==> r.next == SkipSemicolonAt(ts, i + 1))
      && (r.value.initializer.Some? ==>
            var e := ExpressionAt(ts, i + 2);
            e.Parsed? && r.value.initializer.value == e.value && r.next == SkipSemicolonAt(ts, e.next))
  {
  }

  // ----- the programs the parser builds -----

  /** A call argument the grammar allows: a number literal or a variable. */
  predicate IsArgument(e: Expr)
  {
    (e.Literal? && e.value.NumberValue?) || e.Variable?
  }

  /** An expression the grammar allows: an argument, or a call with exactly one argument. */
  predicate IsParsableExpr(e: Expr)
  {
    IsArgument(e) || (e.Call? && |e.arguments| == 1 && IsArgument(e.arguments[0]))
  }

  predicate IsParsableStmt(s: Stmt)
  {
    match s
    case VarDecl(_, init) => init.None? || IsParsableExpr(init.value)
    case ExprStmt(e) => IsParsableExpr(e)
  }

  /** Every expression the parser builds is one the grammar allows: in particular never a string literal. */
  lemma {:induction false} PrimaryIsParsable(ts: seq<Token>, i: nat)
    requires ValidTokens(ts) && IsCursor(ts, i)
    ensures PrimaryAt(ts, i).Parsed? ==> IsParsableExpr(PrimaryAt(ts, i).value)
  {
  }

  lemma {:induction false} StatementIsParsable(ts: seq<Token>, i: nat)
    requires ValidTokens(ts) && IsCursor(ts, i)
    ensures StatementAt(ts, i).Parsed? ==> IsParsableStmt(StatementAt(ts, i).value)
  {
    if CheckAt(ts, i, Keyword, "var") {
      if CheckAt(ts, i + 1, Identifier) && CheckAt(ts, i + 2, Symbol, "=") {
        PrimaryIsParsable(ts, i + 3);
      }
    } else {
      PrimaryIsParsable(ts, i);
    }
  }

  /** Every statement of a successful parse is one the grammar allows. */
  lemma {:induction false} ParsedProgramIsParsable(ts: seq<Token>, i: nat)
    requires ValidTokens(ts) && IsCursor(ts, i)
    ensures ParseFrom(ts, i).Ok? ==> forall s :: s in ParseFrom(ts, i).value ==> IsParsableStmt(s)
    decreases |ts| - i
  {
    if !AtEndAt(ts, i) {
      StatementIsParsable(ts, i);
      match StatementAt(ts, i) {
        case Parsed(s, j) => ParsedProgramIsParsable(ts, j);
        case Failed(_) =>
      }
    }
  }

  // ----- printing a program as tokens, and parsing it back -----

  function DigitChar(d: nat): char
    requires d < 10
  {
    ('0' as int + d) as char
  }

  /** The decimal digits of `n`, most significant first. */
  function Decimal(n: nat): string
    decreases n
  {
    if n < 10 then [DigitChar(n)] else Decimal(n / 10) + [DigitChar(n % 10)]
  }

  /** Reading back the decimal digits of a number gives the number. */
  lemma {:induction false} DecimalRoundTrip(n: nat)
    ensures DigitsValue(Decimal(n)) == n
    decreases n
  {
    if n >= 10 {
      var d := Decimal(n / 10);
      DecimalRoundTrip(n / 10);
      assert (d + [DigitChar(n % 10)])[..|d|] == d;
    }
  }

  /** Tokens are compared by kind and lexeme only; their positions are irrelevant to the parser. */
  function NameToken(name: string): Token { Token(Identifier, name, 0, 0, 0) }
  function SymbolToken(lexeme: string): Token { Token(Symbol, lexeme, 0, 0, 0) }
  function EofMark(): Token { Token(EndOfFile, "", 0, 0, 0) }

  function ArgumentTokens(e: Expr): seq<Token>
    requires IsArgument(e)
  {
    if e.Literal? then [Token(Number, Decimal(e.value.number), 0, 0, 0)] else [NameToken(e.name)]
  }

  function ExprTokens(e: Expr): seq<Token>
    requires IsParsableExpr(e)
  {
    if IsArgument(e) then ArgumentTokens(e)
    else [NameToken(e.callee), SymbolToken("(")] + ArgumentTokens(e.arguments[0]) + [SymbolToken(")")]
  }

  function SemicolonTokens(semicolon: bool): seq<Token>
  {
    if semicolon then [SymbolToken(";")] else []
  }

  function StmtTokens(s: Stmt, semicolon: bool): seq<Token>
    requires IsParsableStmt(s)
  {
    match s
    case VarDecl(name, None) =>
      [Token(Keyword, "var", 0, 0, 0), NameToken(name)] + SemicolonTokens(semicolon)
    case VarDecl(name, Some(e)) =>
      [Token(Keyword, "var", 0, 0, 0), NameToken(name), SymbolToken("=")] + ExprTokens(e) + SemicolonTokens(semicolon)
    case ExprStmt(e) =>
      ExprTokens(e) + SemicolonTokens(semicolon)
  }

  /** Every statement is one the grammar allows, and each has a flag saying whether a `;` follows it. */
  predicate IsPrintable(prog: seq<Stmt>, semicolons: seq<bool>)
  {
    |semicolons| == |prog| && forall k :: 0 <= k < |prog| ==> IsParsableStmt(prog[k])
  }

  /** The tokens of a program, each statement followed by a `;` where `semicolons` says so. */
  function ProgramTokens(prog: seq<Stmt>, semicolons: seq<bool>): seq<Token>
    requires IsPrintable(prog, semicolons)
    decreases |prog|
  {
    if prog == [] then []
    else StmtTokens(prog[0], semicolons[0]) + ProgramTokens(prog[1..], semicolons[1..])
  }

  /** `u` is what `ts` holds from index `i` on. */
  predicate Occurs(ts: seq<Token>, i: nat, u: seq<Token>)
    decreases |u|
  {
    i + |u| <= |ts| && (u == [] || (ts[i] == u[0] && Occurs(ts, i + 1, u[1..])))
  }

  lemma {:induction false} OccursAt(ts: seq<Token>, i: nat, u: seq<Token>, k: nat)
    requires Occurs(ts, i, u) && k < |u|
    ensures ts[i + k] == u[k]
    decreases k
  {
    if k > 0 {
      OccursAt(ts, i + 1, u[1..], k - 1);
    }
  }

  lemma {:induction false} OccursSplit(ts: seq<Token>, i: nat, u: seq<Token>, v: seq<Token>)
    requires Occurs(ts, i, u + v)
    ensures Occurs(ts, i, u) && Occurs(ts, i + |u|, v)
    decreases |u|
  {
    if u == [] {
      assert u + v == v;
    } else {
      assert (u + v)[0] == u[0] && (u + v)[1..] == u[1..] + v;
      OccursSplit(ts, i + 1, u[1..], v);
    }
  }

  /** A printed call argument parses back to itself. */
  lemma ArgumentRoundTrip(ts: seq<Token>, i: nat, a: Expr)
    requires ValidTokens(ts) && IsCursor(ts, i) && IsArgument(a)
    requires ts[i] == ArgumentTokens(a)[0]
    ensures a.Literal? ==> CheckAt(ts, i, Number) && a == Literal(NumberValue(DigitsValue(ts[i].lexeme)))
    ensures a.Variable? ==> CheckAt(ts, i, Identifier) && a == Variable(ts[i].lexeme)
  {
    if a.Literal? {
      DecimalRoundTrip(a.value.number);
    }
  }

  /** A printed call `f(a)` parses back to itself. */
  lemma CallRoundTrip(ts: seq<Token>, i: nat, e: Expr)
    requires ValidTokens(ts) && IsCursor(ts, i + 4) && IsParsableExpr(e) && !IsArgument(e)
    requires ts[i] == NameToken(e.callee) && ts[i + 1] == SymbolToken("(")
    requires ts[i + 2] == ArgumentTokens(e.arguments[0])[0] && ts[i + 3] == SymbolToken(")")
    ensures PrimaryAt(ts, i) == Parsed(e, i + 4)
  {
    var a := e.arguments[0];
    assert IsCursor(ts, i) && IsCursor(ts, i + 1) && IsCursor(ts, i + 2) && IsCursor(ts, i + 3);
    ArgumentRoundTrip(ts, i + 2, a);
    assert e == Call(e.callee, [a]);
  }

  /** A printed expression parses back to itself when no `(` follows it. */
  lemma ExprRoundTrip(ts: seq<Token>, i: nat, e: Expr)
    requires ValidTokens(ts) && IsCursor(ts, i) && IsParsableExpr(e)
    requires Occurs(ts, i, ExprTokens(e)) && i + |ExprTokens(e)| < |ts|
    requires !(ts[i + |ExprTokens(e)|].kind == Symbol && ts[i + |ExprTokens(e)|].lexeme == "(")
    ensures PrimaryAt(ts, i) == Parsed(e, i + |ExprTokens(e)|)
  {
    var u := ExprTokens(e);
    OccursAt(ts, i, u, 0);
    if IsArgument(e) {
      ArgumentRoundTrip(ts, i, e);
    } else {
      OccursAt(ts, i, u, 1);
      OccursAt(ts, i, u, 2);
      OccursAt(ts, i, u, 3);
      CallRoundTrip(ts, i, e);
    }
  }

  /** `var name` with an optional `;` parses back to itself when no `=` or `;` follows. */
  lemma BareDeclarationRoundTrip(ts: seq<Token>, i: nat, s: Stmt, semicolon: bool)
    requires ValidTokens(ts) && IsCursor(ts, i) && s.VarDecl? && s.initializer.None?
    requires Occurs(ts, i, StmtTokens(s, semicolon)) && i + |StmtTokens(s, semicolon)| < |ts|
    requires ts[i + |StmtTokens(s, semicolon)|].kind != Symbol
    ensures StatementAt(ts, i) == Parsed(s, i + |StmtTokens(s, semicolon)|)
  {
    var u := StmtTokens(s, semicolon);
    OccursAt(ts, i, u, 0);
    OccursAt(ts, i, u, 1);
    if semicolon {
      OccursAt(ts, i, u, 2);
    }
    assert IsCursor(ts, i + 1) && IsCursor(ts, i + 2);
  }

  /** After a printed statement's optional `;` comes a token that is not a symbol, so no `(` and no second `;`. */
  lemma SemicolonEnd(ts: seq<Token>, j: nat, semicolon: bool)
    requires ValidTokens(ts) && IsCursor(ts, j)
    requires Occurs(ts, j, SemicolonTokens(semicolon)) && j + |SemicolonTokens(semicolon)| < |ts|
    requires ts[j + |SemicolonTokens(semicolon)|].kind != Symbol
    ensures SkipSemicolonAt(ts, j) == j + |SemicolonTokens(semicolon)|
    ensures j < |ts| && !(ts[j].kind == Symbol && ts[j].lexeme == "(")
  {
    if semicolon {
      OccursAt(ts, j, SemicolonTokens(semicolon), 0);
    }
  }

  lemma DeclarationWithInitializer(ts: seq<Token>, i: nat, name: string, e: Expr, j: nat)
    requires ValidTokens(ts) && IsCursor(ts, i + 3)
    requires ts[i] == Token(Keyword, "var", 0, 0, 0) && ts[i + 1] == NameToken(name) && ts[i + 2] == SymbolToken("=")
    requires PrimaryAt(ts, i + 3) == Parsed(e, j)
    ensures IsCursor(ts, i)
    ensures StatementAt(ts, i) == Parsed(VarDecl(name, Some(e)), SkipSemicolonAt(ts, j))
  {
    assert IsCursor(ts, i) && IsCursor(ts, i + 1) && IsCursor(ts, i + 2);
  }

  /** A printed expression is not empty and holds no end-of-file token. */
  lemma ExprTokensShape(e: Expr)
    requires IsParsableExpr(e)
    ensures |ExprTokens(e)| > 0 && ExprTokens(e)[0].kind != Keyword
    ensures forall k :: 0 <= k < |ExprTokens(e)| ==> ExprTokens(e)[k].kind != EndOfFile
  {
  }

  /** Where the parts of a printed declaration with an initializer are. */
  lemma InitializedDeclarationTokens(ts: seq<Token>, i: nat, s: Stmt, semicolon: bool)
    requires ValidTokens(ts) && IsCursor(ts, i) && IsParsableStmt(s) && s.VarDecl? && s.initializer.Some?
    requires Occurs(ts, i, StmtTokens(s, semicolon)) && i + |StmtTokens(s, semicolon)| < |ts|
    requires ts[i + |StmtTokens(s, semicolon)|].kind != Symbol
    ensures var e := s.initializer.value;
      var j := i + 3 + |ExprTokens(e)|;
      && ts[i] == Token(Keyword, "var", 0, 0, 0) && ts[i + 1] == NameToken(s.name) && ts[i + 2] == SymbolToken("=")
      && IsCursor(ts, i + 3) && Occurs(ts, i + 3, ExprTokens(e))
      && j < |ts| && IsCursor(ts, j) && !(ts[j].kind == Symbol && ts[j].lexeme == "(")
      && SkipSemicolonAt(ts, j) == i + |StmtTokens(s, semicolon)|
  {
    var e := s.initializer.value;
    DeclarationParts(ts, i, s, semicolon);
    ExprTokensShape(e);
    OccursSplit(ts, i + 3, ExprTokens(e), SemicolonTokens(semicolon));
    SemicolonEnd(ts, i + 3 + |ExprTokens(e)|, semicolon);
  }

  /** A printed declaration with an initializer is `var`, the name, `=`, the expression and the optional `;`. */
  lemma DeclarationParts(ts: seq<Token>, i: nat, s: Stmt, semicolon: bool)
    requires IsParsableStmt(s) && s.VarDecl? && s.initializer.Some? && Occurs(ts, i, StmtTokens(s, semicolon))
    ensures i + 3 <= |ts| && ts[i] == Token(Keyword, "var", 0, 0, 0) && ts[i + 1] == NameToken(s.name)
    ensures ts[i + 2] == SymbolToken("=")
    ensures Occurs(ts, i + 3, ExprTokens(s.initializer.value) + SemicolonTokens(semicolon))
  {
    var head := [Token(Keyword, "var", 0, 0, 0), NameToken(s.name), SymbolToken("=")];
    var rest := ExprTokens(s.initializer.value) + SemicolonTokens(semicolon);
    assert StmtTokens(s, semicolon) == head + rest;
    OccursSplit(ts, i, head, rest);
    OccursAt(ts, i, head, 0);
    OccursAt(ts, i, head, 1);
    OccursAt(ts, i, head, 2);
  }

  /** `var name = e` with an optional `;` parses back to itself when the next token is not a symbol. */
  lemma InitializedDeclarationRoundTrip(ts: seq<Token>, i: nat, s: Stmt, semicolon: bool)
    requires ValidTokens(ts) && IsCursor(ts, i) && IsParsableStmt(s) && s.VarDecl? && s.initializer.Some?
    requires Occurs(ts, i, StmtTokens(s, semicolon)) && i + |StmtTokens(s, semicolon)| < |ts|
    requires ts[i + |StmtTokens(s, semicolon)|].kind != Symbol
    ensures StatementAt(ts, i) == Parsed(s, i + |StmtTokens(s, semicolon)|)
  {
    var e := s.initializer.value;
    InitializedDeclarationTokens(ts, i, s, semicolon);
    ExprRoundTrip(ts, i + 3, e);
    DeclarationWithInitializer(ts, i, s.name, e, i + 3 + |ExprTokens(e)|);
  }

  lemma ExprStatementOf(ts: seq<Token>, i: nat, e: Expr, j: nat)
    requires ValidTokens(ts) && IsCursor(ts, i) && ts[i].kind != Keyword
    requires PrimaryAt(ts, i) == Parsed(e, j)
    ensures StatementAt(ts, i) == Parsed(ExprStmt(e), SkipSemicolonAt(ts, j))
  {
  }

  /** Where the parts of a printed expression statement are. */
  lemma ExprStatementTokens(ts: seq<Token>, i: nat, s: Stmt, semicolon: bool)
    requires ValidTokens(ts) && IsCursor(ts, i) && IsParsableStmt(s) && s.ExprStmt?
    requires Occurs(ts, i, StmtTokens(s, semicolon)) && i + |StmtTokens(s, semicolon)| < |ts|
    requires ts[i + |StmtTokens(s, semicolon)|].kind != Symbol
    ensures var j := i + |ExprTokens(s.expression)|;
      && Occurs(ts, i, ExprTokens(s.expression)) && j < |ts| && IsCursor(ts, j)
      && !(ts[j].kind == Symbol && ts[j].lexeme == "(")
      && SkipSemicolonAt(ts, j) == i + |StmtTokens(s, semicolon)|
      && ts[i].kind != Keyword
  {
    var e := s.expression;
    var semi := SemicolonTokens(semicolon);
    ExprTokensShape(e);
    OccursSplit(ts, i, ExprTokens(e), semi);
    OccursAt(ts, i, ExprTokens(e), 0);
    SemicolonEnd(ts, i + |ExprTokens(e)|, semicolon);
  }

  /** An expression statement with an optional `;` parses back to itself when the next token is not a symbol. */
  lemma ExprStatementRoundTrip(ts: seq<Token>, i: nat, s: Stmt, semicolon: bool)
    requires ValidTokens(ts) && IsCursor(ts, i) && IsParsableStmt(s) && s.ExprStmt?
    requires Occurs(ts, i, StmtTokens(s, semicolon)) && i + |StmtTokens(s, semicolon)| < |ts|
    requires ts[i + |StmtTokens(s, semicolon)|].kind != Symbol
    ensures StatementAt(ts, i) == Parsed(s, i + |StmtTokens(s, semicolon)|)
  {
    ExprStatementTokens(ts, i, s, semicolon);
    ExprRoundTrip(ts, i, s.expression);
    ExprStatementOf(ts, i, s.expression, i + |ExprTokens(s.expression)|);
  }

  /** A printed statement parses back to itself when the next token is not a symbol. */
  lemma StmtRoundTrip(ts: seq<Token>, i: nat, s: Stmt, semicolon: bool)
    requires ValidTokens(ts) && IsCursor(ts, i) && IsParsableStmt(s)
    requires Occurs(ts, i, StmtTokens(s, semicolon)) && i + |StmtTokens(s, semicolon)| < |ts|
    requires ts[i + |StmtTokens(s, semicolon)|].kind != Symbol
    ensures StatementAt(ts, i) == Parsed(s, i + |StmtTokens(s, semicolon)|)
  {
    if s.ExprStmt? {
      ExprStatementRoundTrip(ts, i, s, semicolon);
    } else if s.initializer.None? {
      BareDeclarationRoundTrip(ts, i, s, semicolon);
    } else {
      InitializedDeclarationRoundTrip(ts, i, s, semicolon);
    }
  }

  /** A printed statement starts with a keyword, a name or a number, and has no end-of-file token. */
  lemma StmtTokensShape(s: Stmt, semicolon: bool)
    requires IsParsableStmt(s)
    ensures |StmtTokens(s, semicolon)| > 0 && StmtTokens(s, semicolon)[0].kind != Symbol
    ensures forall k :: 0 <= k < |StmtTokens(s, semicolon)| ==> StmtTokens(s, semicolon)[k].kind != EndOfFile
  {
    var semi := SemicolonTokens(semicolon);
    match s {
      case VarDecl(name, None) =>
      case VarDecl(name, Some(e)) =>
        ExprTokensShape(e);
        var head := [Token(Keyword, "var", 0, 0, 0), NameToken(name), SymbolToken("=")];
        assert StmtTokens(s, semicolon) == head + ExprTokens(e) + semi;
      case ExprStmt(e) =>
        ExprTokensShape(e);
        assert StmtTokens(s, semicolon) == ExprTokens(e) + semi;
    }
  }

  lemma ProgramTokensCons(prog: seq<Stmt>, semicolons: seq<bool>)
    requires IsPrintable(prog, semicolons) && prog != []
    ensures IsPrintable(prog[1..], semicolons[1..]) && IsParsableStmt(prog[0])
    ensures ProgramTokens(prog, semicolons)
      == StmtTokens(prog[0], semicolons[0]) + ProgramTokens(prog[1..], semicolons[1..])
  {
  }

  /** From index `i` on, `ts` holds the printed statements of `prog` and then the end-of-file token. */
  ghost predicate PrintedFrom(ts: seq<Token>, i: nat, prog: seq<Stmt>, semicolons: seq<bool>)
    requires IsPrintable(prog, semicolons)
    decreases |prog|
  {
    if prog == [] then i < |ts| && ts[i].kind == EndOfFile
    else
      var u := StmtTokens(prog[0], semicolons[0]);
      ProgramTokensCons(prog, semicolons);
      Occurs(ts, i, u) && PrintedFrom(ts, i + |u|, prog[1..], semicolons[1..])
  }

  /** Printed statements start with a token that is neither a symbol nor, unless none is left, the end-of-file token. */
  lemma PrintedStart(ts: seq<Token>, i: nat, prog: seq<Stmt>, semicolons: seq<bool>)
    requires IsPrintable(prog, semicolons) && PrintedFrom(ts, i, prog, semicolons)
    ensures i < |ts| && ts[i].kind != Symbol && (prog != [] <==> ts[i].kind != EndOfFile)
  {
    if prog != [] {
      var head := StmtTokens(prog[0], semicolons[0]);
      StmtTokensShape(prog[0], semicolons[0]);
      OccursAt(ts, i, head, 0);
    }
  }

  /** What follows a printed statement: the next statement's first token or the end-of-file token. */
  lemma AfterStatement(ts: seq<Token>, i: nat, prog: seq<Stmt>, semicolons: seq<bool>)
    requires IsPrintable(prog, semicolons) && prog != []
    requires IsCursor(ts, i) && PrintedFrom(ts, i, prog, semicolons)
    ensures var n := i + |StmtTokens(prog[0], semicolons[0])|;
      && Occurs(ts, i, StmtTokens(prog[0], semicolons[0]))
      && IsPrintable(prog[1..], semicolons[1..]) && PrintedFrom(ts, n, prog[1..], semicolons[1..])
      && IsCursor(ts, n) && ts[n].kind != Symbol && !AtEndAt(ts, i)
  {
    ProgramTokensCons(prog, semicolons);
    PrintedStart(ts, i, prog, semicolons);
    PrintedStart(ts, i + |StmtTokens(prog[0], semicolons[0])|, prog[1..], semicolons[1..]);
  }

  /** The parse of printed tokens reads the first statement back and goes on after it. */
  lemma FirstStatementRoundTrip(ts: seq<Token>, i: nat, s: Stmt, semicolon: bool, n: nat)
    requires ValidTokens(ts) && IsCursor(ts, i) && IsParsableStmt(s) && !AtEndAt(ts, i)
    requires n == i + |StmtTokens(s, semicolon)| && Occurs(ts, i, StmtTokens(s, semicolon))
    requires IsCursor(ts, n) && ts[n].kind != Symbol
    ensures ParseFrom(ts, i) == Prepend([s], ParseFrom(ts, n))
  {
    StmtRoundTrip(ts, i, s, semicolon);
    ParseFromParsed(ts, i, s, n);
  }

  lemma ParseFromParsed(ts: seq<Token>, i: nat, s: Stmt, n: nat)
    requires ValidTokens(ts) && IsCursor(ts, i) && !AtEndAt(ts, i)
    requires StatementAt(ts, i) == Parsed(s, n)
    ensures IsCursor(ts, n) && ParseFrom(ts, i) == Prepend([s], ParseFrom(ts, n))
  {
  }

  /** The printed tokens of the statements from `i` on parse back to those statements. */
  lemma {:induction false} ProgramRoundTripFrom(ts: seq<Token>, i: nat, prog: seq<Stmt>, semicolons: seq<bool>)
    requires IsPrintable(prog, semicolons)
    requires ValidTokens(ts) && IsCursor(ts, i) && PrintedFrom(ts, i, prog, semicolons)
    ensures ParseFrom(ts, i) == Ok(prog)
    decreases |prog|
  {
    if prog != [] {
      var n := NextStatement(ts, i, prog, semicolons);
      ProgramRoundTripFrom(ts, n, prog[1..], semicolons[1..]);
      PrependFirst(ParseFrom(ts, i), ParseFrom(ts, n), prog);
    }
  }

  /** Where the statement after the first one starts, and the parse up to there. */
  lemma NextStatement(ts: seq<Token>, i: nat, prog: seq<Stmt>, semicolons: seq<bool>) returns (n: nat)
    requires IsPrintable(prog, semicolons) && prog != []
    requires ValidTokens(ts) && IsCursor(ts, i) && PrintedFrom(ts, i, prog, semicolons)
    ensures IsPrintable(prog[1..], semicolons[1..]) && IsCursor(ts, n) && PrintedFrom(ts, n, prog[1..], semicolons[1..])
    ensures ParseFrom(ts, i) == Prepend([prog[0]], ParseFrom(ts, n))
  {
    n := i + |StmtTokens(prog[0], semicolons[0])|;
    AfterStatement(ts, i, prog, semicolons);
    FirstStatementRoundTrip(ts, i, prog[0], semicolons[0], n);
  }

  lemma PrependFirst(whole: Result<seq<Stmt>>, rest: Result<seq<Stmt>>, prog: seq<Stmt>)
    requires prog != [] && whole == Prepend([prog[0]], rest) && rest == Ok(prog[1..])
    ensures whole == Ok(prog)
  {
    assert [prog[0]] + prog[1..] == prog;
  }

  /** The printed tokens of a program, after any prefix, are where `PrintedFrom` says. */
  lemma {:induction false} PrintedTokensLayout(pre: seq<Token>, prog: seq<Stmt>, semicolons: seq<bool>)
    requires IsPrintable(prog, semicolons)
    ensures PrintedFrom(pre + ProgramTokens(prog, semicolons) + [EofMark()], |pre|, prog, semicolons)
    decreases |prog|
  {
    if prog == [] {
      assert (pre + ProgramTokens(prog, semicolons) + [EofMark()])[|pre|] == EofMark();
    } else {
      var head := StmtTokens(prog[0], semicolons[0]);
      var tail := ProgramTokens(prog[1..], semicolons[1..]);
      ProgramTokensCons(prog, semicolons);
      OccursAfter(pre, head, tail + [EofMark()]);
      PrintedTokensLayout(pre + head, prog[1..], semicolons[1..]);
      Reassociate(pre, head, tail, [EofMark()]);
    }
  }

  /** `u` occurs in `pre + u + post` right after `pre`. */
  lemma {:induction false} OccursAfter(pre: seq<Token>, u: seq<Token>, post: seq<Token>)
    ensures Occurs(pre + u + post, |pre|, u)
    decreases |u|
  {
    if u != [] {
      assert (pre + u + post)[|pre|] == u[0];
      assert pre + u + post == (pre + [u[0]]) + u[1..] + post;
      OccursAfter(pre + [u[0]], u[1..], post);
    }
  }

  lemma Reassociate(a: seq<Token>, b: seq<Token>, c: seq<Token>, d: seq<Token>)
    ensures a + (b + c) + d == a + b + (c + d) == (a + b) + c + d
  {
  }

  /**
    Printing any program the grammar allows, with or without a `;` after each
    statement, and parsing the tokens gives the program back: the trailing
    `;` is optional and the parser loses nothing.
   */
  lemma ProgramRoundTrip(prog: seq<Stmt>, semicolons: seq<bool>)
    requires IsPrintable(prog, semicolons)
    ensures ValidTokens(ProgramTokens(prog, semicolons) + [EofMark()])
    ensures Parse(ProgramTokens(prog, semicolons) + [EofMark()]) == Ok(prog)
  {
    var ts := ProgramTokens(prog, semicolons) + [EofMark()];
    PrintedTokensLayout([], prog, semicolons);
    assert [] + ProgramTokens(prog, semicolons) + [EofMark()] == ts;
    ProgramRoundTripFrom(ts, 0, prog, semicolons);
  }

  // ----- the parser reads kinds and lexemes only -----

  /** Two token sequences that differ at most in where their tokens are. */
  predicate SameText(ts: seq<Token>, us: seq<Token>)
  {
    |ts| == |us| && forall k :: 0 <= k < |ts| ==> ts[k].kind == us[k].kind && ts[k].lexeme == us[k].lexeme
  }

  lemma {:induction false} StatementIgnoresPositions(ts: seq<Token>, us: seq<Token>, i: nat)
    requires ValidTokens(ts) && IsCursor(ts, i) && SameText(ts, us)
    ensures ValidTokens(us) && IsCursor(us, i)
    ensures StatementAt(ts, i) == StatementAt(us, i)
  {
    PrimaryIgnoresPositions(ts, us, i);
    if CheckAt(ts, i, Keyword, "var") {
      DeclarationIgnoresPositions(ts, us, i + 1);
    }
  }

  lemma {:induction false} DeclarationIgnoresPositions(ts: seq<Token>, us: seq<Token>, i: nat)
    requires ValidTokens(ts) && IsCursor(ts, i) && SameText(ts, us)
    ensures ValidTokens(us) && IsCursor(us, i)
    ensures VarDeclarationAt(ts, i) == VarDeclarationAt(us, i)
  {
    PrimaryIgnoresPositions(ts, us, i);
    PrimaryIgnoresPositions(ts, us, i + 2);
  }

  lemma {:induction false} PrimaryIgnoresPositions(ts: seq<Token>, us: seq<Token>, i: nat)
    requires ValidTokens(ts) && SameText(ts, us)
    ensures IsCursor(ts, i) ==> IsCursor(us, i) && ValidTokens(us) && PrimaryAt(ts, i) == PrimaryAt(us, i)
  {
    assert ts[|ts| - 1].kind == us[|us| - 1].kind;
  }

  /** The line, column and offset of a token never affect the parse. */
  lemma {:induction false} ParseIgnoresPositions(ts: seq<Token>, us: seq<Token>, i: nat)
    requires ValidTokens(ts) && IsCursor(ts, i) && SameText(ts, us)
    ensures ValidTokens(us) && IsCursor(us, i)
    ensures ParseFrom(ts, i) == ParseFrom(us, i)
    decreases |ts| - i
  {
    StatementIgnoresPositions(ts, us, i);
    if !AtEndAt(ts, i) {
      match StatementAt(ts, i) {
        case Parsed(_, j) => ParseIgnoresPositions(ts, us, j);
        case Failed(_) =>
      }
    }
  }
}
