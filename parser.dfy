/**
  The parser of runtime/src/frontend/parser.cpp (state declared in parser.hpp).

  The functions ending in `At` are the reference definition: what each
  production yields when the cursor is at index `i` of the token sequence,
  either the tree and the index after it or the message of the
  `std::runtime_error` the source throws. The class `Parser` is the
  recursive-descent parser with its cursor, and each of its methods is proved
  to agree with the matching `At` function. Properties of the grammar are
  proved in module ParsingProperties.
 */
module Parsing {
  import opened Common
  import opened Tokens
  import opened Ast
  import Lexing

  const VarNameMessage := "Expected variable name after 'var'."
  const CallArgumentMessage := "Expected expression as print argument"
  const CloseParenMessage := "Expected ')' after argument."
  const ExpressionMessage := "Expected expression at token: "

  /** What the parser is given: a non-empty sequence whose last token is the end-of-file token. */
  predicate ValidTokens(ts: seq<Token>)
  {
    |ts| > 0 && ts[|ts| - 1].kind == EndOfFile
  }

  /**
    A cursor position: in bounds. Since the last token is the end-of-file
    token, a cursor at any other token can move one further.
   */
  predicate IsCursor(ts: seq<Token>, i: nat)
  {
    i < |ts|
  }

  /** The result of one production: the tree and the index after it, or a syntax error. */
  datatype Step<T> = Parsed(value: T, next: nat) | Failed(message: string)

  /** The value of a decimal digit; `std::stod` of a digit run is modelled on whole numbers. */
  function DigitValue(c: char): nat
  {
    if Lexing.IsDigit(c) then c as int - '0' as int else 0
  }

  /** The number a digit string denotes. */
  function DigitsValue(s: string): nat
    decreases |s|
  {
    if s == [] then 0 else 10 * DigitsValue(s[..|s| - 1]) + DigitValue(s[|s| - 1])
  }

  predicate AtEndAt(ts: seq<Token>, i: nat)
    requires i < |ts|
  {
    ts[i].kind == EndOfFile
  }

  /** `check`: the token at `i` has the kind and, unless `lexeme` is empty, that lexeme. */
  predicate CheckAt(ts: seq<Token>, i: nat, kind: TokenKind, lexeme: string := "")
    requires i < |ts|
  {
    if AtEndAt(ts, i) then false
    else if ts[i].kind != kind then false
    else if lexeme != "" && ts[i].lexeme != lexeme then false
    else true
  }

  /** `match(Symbol, ";")` as used after a statement: the index after an optional ';'. */
  function SkipSemicolonAt(ts: seq<Token>, i: nat): (j: nat)
    requires ValidTokens(ts) && IsCursor(ts, i)
    ensures IsCursor(ts, j) && i <= j <= i + 1
  {
    if CheckAt(ts, i, Symbol, ";") then i + 1 else i
  }

  /**
    The closing parenthesis of a call whose callee is `callee` and whose one
    argument `arg` ends just before `i`.
   */
  function CloseCallAt(ts: seq<Token>, i: nat, callee: string, arg: Expr): (r: Step<Expr>)
    requires ValidTokens(ts) && IsCursor(ts, i)
    ensures r.Parsed? ==> r.next == i + 1 && IsCursor(ts, r.next)
  {
    if !CheckAt(ts, i, Symbol) || ts[i].lexeme != ")" then Failed(CloseParenMessage)
    else Parsed(Call(callee, [arg]), i + 1)
  }

  /** `primary`: a number, a name, or a name applied to exactly one number or name. */
  function PrimaryAt(ts: seq<Token>, i: nat): (r: Step<Expr>)
    requires ValidTokens(ts) && IsCursor(ts, i)
    ensures r.Parsed? ==> i < r.next && IsCursor(ts, r.next)
  {
    if CheckAt(ts, i, Number) then
      Parsed(Literal(NumberValue(DigitsValue(ts[i].lexeme))), i + 1)
    else if CheckAt(ts, i, Identifier) || CheckAt(ts, i, Keyword) then
      var callee := ts[i].lexeme;
      if CheckAt(ts, i + 1, Symbol, "(") then
        var a := i + 2;
        if CheckAt(ts, a, Number) then
          CloseCallAt(ts, a + 1, callee, Literal(NumberValue(DigitsValue(ts[a].lexeme))))
        else if CheckAt(ts, a, Identifier) || CheckAt(ts, a, Keyword) then
          CloseCallAt(ts, a + 1, callee, Variable(ts[a].lexeme))
        else
          Failed(CallArgumentMessage)
      else
        Parsed(Variable(callee), i + 1)
    else
      Failed(ExpressionMessage + ts[i].lexeme)
  }

  /** `expression`: there are no operators, so an expression is a primary. */
  function ExpressionAt(ts: seq<Token>, i: nat): (r: Step<Expr>)
    requires ValidTokens(ts) && IsCursor(ts, i)
    ensures r.Parsed? ==> i < r.next && IsCursor(ts, r.next)
  {
    PrimaryAt(ts, i)
  }

  /** `var_declaration`, with `i` just after the `var` keyword. */
  function VarDeclarationAt(ts: seq<Token>, i: nat): (r: Step<Stmt>)
    requires ValidTokens(ts) && IsCursor(ts, i)
    ensures r.Parsed? ==> i < r.next && IsCursor(ts, r.next)
  {
    if !CheckAt(ts, i, Identifier) then Failed(VarNameMessage)
    else
      var name := ts[i].lexeme;
      if CheckAt(ts, i + 1, Symbol, "=") then
        match ExpressionAt(ts, i + 2)
        case Failed(m) => Failed(m)
        case Parsed(e, j) => Parsed(VarDecl(name, Some(e)), SkipSemicolonAt(ts, j))
      else
        Parsed(VarDecl(name, None), SkipSemicolonAt(ts, i + 1))
  }

  /** `expr_statement`. */
  function ExprStatementAt(ts: seq<Token>, i: nat): (r: Step<Stmt>)
    requires ValidTokens(ts) && IsCursor(ts, i)
    ensures r.Parsed? ==> i < r.next && IsCursor(ts, r.next)
  {
    match ExpressionAt(ts, i)
    case Failed(m) => Failed(m)
    case Parsed(e, j) => Parsed(ExprStmt(e), SkipSemicolonAt(ts, j))
  }

  /** `statement`: every statement consumes at least one token or fails. */
  function StatementAt(ts: seq<Token>, i: nat): (r: Step<Stmt>)
    requires ValidTokens(ts) && IsCursor(ts, i)
    ensures r.Parsed? ==> i < r.next && IsCursor(ts, r.next)
  {
    if CheckAt(ts, i, Keyword, "var") then VarDeclarationAt(ts, i + 1)
    else ExprStatementAt(ts, i)
  }

  /** Puts `done` in front of the statements of a successful parse; a failure stays a failure. */
  function Prepend(done: seq<Stmt>, r: Result<seq<Stmt>>): Result<seq<Stmt>>
  {
    match r
    case Ok(rest) => Ok(done + rest)
    case Err(m) => Err(m)
  }

  /**
    `parse`: statements up to the end-of-file token, or the first syntax error.
    There is at most one statement per token.
   */
  function ParseFrom(ts: seq<Token>, i: nat): (r: Result<seq<Stmt>>)
    requires ValidTokens(ts) && IsCursor(ts, i)
    ensures r.Ok? ==> |r.value| < |ts| - i
    decreases |ts| - i
  {
    if AtEndAt(ts, i) then Ok([])
    else
      match StatementAt(ts, i)
      case Failed(m) => Err(m)
      case Parsed(s, j) => Prepend([s], ParseFrom(ts, j))
  }

  /** One round of the parse loop: a parsed statement joins the ones before it, a failure ends the parse. */
  lemma ParseFromStep(ts: seq<Token>, i: nat, done: seq<Stmt>)
    requires ValidTokens(ts) && IsCursor(ts, i) && !AtEndAt(ts, i)
    ensures match StatementAt(ts, i)
      case Parsed(s, j) => Prepend(done, ParseFrom(ts, i)) == Prepend(done + [s], ParseFrom(ts, j))
      case Failed(m) => Prepend(done, ParseFrom(ts, i)) == Err(m)
  {
    match StatementAt(ts, i) {
      case Parsed(s, j) =>
        match ParseFrom(ts, j) {
          case Ok(rest) => assert done + ([s] + rest) == (done + [s]) + rest;
          case Err(_) =>
        }
      case Failed(_) =>
    }
  }

  /** The whole parse, from the first token. */
  function Parse(ts: seq<Token>): Result<seq<Stmt>>
    requires ValidTokens(ts)
  {
    ParseFrom(ts, 0)
  }

  /** A method's result `r` and final cursor agree with the reference step `s`. */
  predicate Yields<T(==)>(r: Result<T>, cursor: nat, s: Step<T>)
  {
    match s
    case Parsed(v, n) => r == Ok(v) && cursor == n
    case Failed(m) => r == Err(m)
  }

  class Parser {
    const tokens: seq<Token>
    var current: nat

    ghost predicate Valid()
      reads this
    {
      ValidTokens(tokens) && IsCursor(tokens, current)
    }

    constructor (tokens: seq<Token>)
      requires ValidTokens(tokens)
      ensures Valid() && this.tokens == tokens && current == 0
    {
      this.tokens := tokens;
      this.current := 0;
    }

    /** Parses from the cursor to the end of input; the tokens themselves are never changed. */
    method Parse() returns (r: Result<seq<Stmt>>)
      requires Valid()
      modifies this`current
      ensures Valid()
      ensures r == ParseFrom(tokens, old(current))
    {
      var statements: seq<Stmt> := [];
      ghost var whole := ParseFrom(tokens, current);
      assert whole.Ok? ==> [] + whole.value == whole.value;
      while !IsAtEnd()
        invariant Valid() && old(current) <= current
        invariant ParseFrom(tokens, old(current)) == Prepend(statements, ParseFrom(tokens, current))
        decreases |tokens| - current
      {
        ParseFromStep(tokens, current, statements);
        var s := Statement();
        if s.Err? {
          return Err(s.error);
        }
        statements := statements + [s.value];
      }
      assert statements + [] == statements;
      return Ok(statements);
    }

    method Statement() returns (r: Result<Stmt>)
      requires Valid()
      modifies this`current
      ensures Valid() && Yields(r, current, StatementAt(tokens, old(current)))
    {
      var isVar := Match(Keyword, "var");
      if isVar {
        r := VarDeclaration();
        return;
      }
      r := ExprStatement();
    }

    method VarDeclaration() returns (r: Result<Stmt>)
      requires Valid()
      modifies this`current
      ensures Valid() && Yields(r, current, VarDeclarationAt(tokens, old(current)))
    {
      var name := Consume(Identifier, VarNameMessage);
      if name.Err? {
        return Err(name.error);
      }
      var initializer: Option<Expr> := None;
      var hasInitializer := Match(Symbol, "=");
      if hasInitializer {
        var e := Expression();
        if e.Err? {
          return Err(e.error);
        }
        initializer := Some(e.value);
      }
      var _ := Match(Symbol, ";");
      return Ok(VarDecl(name.value.lexeme, initializer));
    }

    method ExprStatement() returns (r: Result<Stmt>)
      requires Valid()
      modifies this`current
      ensures Valid() && Yields(r, current, ExprStatementAt(tokens, old(current)))
    {
      var e := Expression();
      if e.Err? {
        return Err(e.error);
      }
      var _ := Match(Symbol, ";");
      return Ok(ExprStmt(e.value));
    }

    method Expression() returns (r: Result<Expr>)
      requires Valid()
      modifies this`current
      ensures Valid() && Yields(r, current, ExpressionAt(tokens, old(current)))
    {
      r := Primary();
    }

    method Primary() returns (r: Result<Expr>)
      requires Valid()
      modifies this`current
      ensures Valid() && Yields(r, current, PrimaryAt(tokens, old(current)))
    {
      if Check(Number) {
        var num := Advance();
        return Ok(Literal(NumberValue(DigitsValue(num.lexeme))));
      }

      // Identifiers or keywords; a call when '(' follows
      if Check(Identifier) || Check(Keyword) {
        var id := Advance();
        if Check(Symbol, "(") {
          var _ := Advance();
          var arg: Expr;
          if Check(Number) {
            var num := Advance();
            arg := Literal(NumberValue(DigitsValue(num.lexeme)));
          } else if Check(Identifier) || Check(Keyword) {
            var v := Advance();
            arg := Variable(v.lexeme);
          } else {
            return Err(CallArgumentMessage);
          }
          if !Check(Symbol) || Peek().lexeme != ")" {
            return Err(CloseParenMessage);
          }
          var _ := Advance();
          return Ok(Call(id.lexeme, [arg]));
        }
        return Ok(Variable(id.lexeme));
      }

      return Err(ExpressionMessage + Peek().lexeme);
    }

    /** Advances past the current token when it passes `Check`. */
    method Match(kind: TokenKind, lexeme: string := "") returns (matched: bool)
      requires Valid()
      modifies this`current
      ensures Valid()
      ensures matched == CheckAt(tokens, old(current), kind, lexeme)
      ensures current == if matched then old(current) + 1 else old(current)
    {
      if Check(kind, lexeme) {
        var _ := Advance();
        return true;
      }
      return false;
    }

    /** Whether the current token, which must not be the end-of-file token, has the kind and, unless `lexeme` is empty, the lexeme. */
    predicate Check(kind: TokenKind, lexeme: string := ""): (r: bool)
      requires Valid()
      reads this
      ensures r <==> !IsAtEnd() && Peek().kind == kind && (lexeme == "" || Peek().lexeme == lexeme)
    {
      CheckAt(tokens, current, kind, lexeme)
    }

    /** Moves past the current token unless it is the end-of-file token, and returns the token passed. */
    method Advance() returns (t: Token)
      requires Valid() && (!IsAtEnd() || current > 0)
      modifies this`current
      ensures Valid()
      ensures current == if old(IsAtEnd()) then old(current) else old(current) + 1
      ensures t == tokens[current - 1]
    {
      if !IsAtEnd() {
        current := current + 1;
      }
      return Previous();
    }

    /** Whether the cursor is at an end-of-file token; a cursor anywhere else has a token after it. */
    predicate IsAtEnd(): (r: bool)
      requires Valid()
      reads this
      ensures r <==> tokens[current].kind == EndOfFile
      ensures !r ==> current + 1 < |tokens|
    {
      Peek().kind == EndOfFile
    }

    /** The current token; at the last position it is the end-of-file token. */
    function Peek(): (t: Token)
      requires Valid()
      reads this
      ensures t == tokens[current]
      ensures current == |tokens| - 1 ==> t.kind == EndOfFile
    {
      tokens[current]
    }

    /** The token just passed; it exists only once the cursor has moved. */
    function Previous(): (t: Token)
      requires Valid() && current > 0
      reads this
      ensures t == tokens[current - 1] && current - 1 < |tokens| - 1
    {
      tokens[current - 1]
    }

    /** Advances past a token of kind `kind`, or fails with `message`. */
    method Consume(kind: TokenKind, message: string) returns (r: Result<Token>)
      requires Valid()
      modifies this`current
      ensures Valid()
      ensures CheckAt(tokens, old(current), kind) ==> r == Ok(tokens[old(current)]) && current == old(current) + 1
      ensures !CheckAt(tokens, old(current), kind) ==> r == Err(message) && current == old(current)
    {
      if Check(kind) {
        var t := Advance();
        return Ok(t);
      }
      return Err(message);
    }
  }
}
