/**
  The pipeline of runtime/src/runtime_instance.cpp: `execute` lexes the text,
  parses the tokens, and, only when the parse succeeds, runs the statements
  in order on one fresh interpreter.

  The line and column the lexer starts counting from are set in lexer.hpp,
  which is not part of this model; `Execute` takes them as `origin`, and
  `TraceIgnoresOrigin` shows that the trace never depends on them.
 */
module Runtime {
  import opened Tokens
  import opened Ast
  import opened Common
  import opened Lexing
  import opened Parsing
  import opened Interpreting
  import LexingProperties
  import ParsingProperties
  import InterpretingProperties

  /** The tokens of any text are a valid parser input: lexing never fails. */
  lemma LexedTokensAreValid(code: string, origin: Location)
    ensures ValidTokens(Lex(code, origin))
  {
    LexingProperties.LexFromEndsWithEof(code, 0, origin);
  }

  /** The parse of a text. */
  function ParseText(code: string, origin: Location): Result<seq<Stmt>>
  {
    LexedTokensAreValid(code, origin);
    Parse(Lex(code, origin))
  }

  /**
    What `execute` writes: the syntax error alone when the parse fails;
    otherwise what the statements write, run in order from an empty
    environment.
   */
  function ExecuteTrace(code: string, origin: Location): seq<Event>
  {
    match ParseText(code, origin)
    case Err(m) => [ParserError(m)]
    case Ok(prog) => RunProgram(map[], prog).output
  }

  class RuntimeInstance {
    constructor ()
    {
    }

    /** Runs a text held in memory, exactly as `Execute` does. */
    method RunString(code: string, origin: Location) returns (trace: seq<Event>)
      ensures trace == ExecuteTrace(code, origin)
    {
      trace := Execute(code, origin);
    }

    method Execute(code: string, origin: Location) returns (trace: seq<Event>)
      ensures trace == ExecuteTrace(code, origin)
    {
      var lexer := new Lexer(code, origin.line, origin.column);
      var tokens := lexer.Tokenize();
      LexedTokensAreValid(code, origin);

      var parser := new Parser(tokens);
      var program := parser.Parse();
      if program.Err? {
        return [ParserError(program.error)];
      }

      var statements := program.value;
      var interpreter := new Interpreter();
      trace := [];
      for k := 0 to |statements|
        invariant interpreter.environment == RunProgram(map[], statements[..k]).env
        invariant trace == RunProgram(map[], statements[..k]).output
      {
        assert statements[..k + 1][..k] == statements[..k];
        var output := interpreter.Execute(statements[k]);
        trace := trace + output;
      }
      assert statements[..|statements|] == statements;
    }
  }

  // ----- all or nothing -----

  /**
    A syntax error is reported and nothing runs, so nothing is printed; a
    successful parse reports no syntax error at all.
   */
  lemma SyntaxErrorRunsNothing(code: string, origin: Location)
    ensures ParseText(code, origin).Err? ==> ExecuteTrace(code, origin) == [ParserError(ParseText(code, origin).error)]
    ensures ParseText(code, origin).Ok? ==> forall ev :: ev in ExecuteTrace(code, origin) ==> !ev.ParserError?
  {
    if ParseText(code, origin).Ok? {
      InterpretingProperties.ProgramWritesNoParserError(map[], ParseText(code, origin).value);
    }
  }

  // ----- the starting line and column do not matter -----

  /** Lexing from another starting line and column changes only where the tokens are said to be. */
  lemma {:induction false} LexIgnoresOrigin(code: string, i: nat, o1: Location, o2: Location)
    requires i <= |code|
    ensures ParsingProperties.SameText(LexFrom(code, i, o1), LexFrom(code, i, o2))
    decreases |code| - i
  {
    if i < |code| {
      if !StartsToken(code[i]) {
        LexFromSkip(code, i, o1);
        LexFromSkip(code, i, o2);
        LexIgnoresOrigin(code, i + 1, o1, o2);
      } else {
        var j := TokenEnd(code, i);
        LexFromToken(code, i, o1);
        LexFromToken(code, i, o2);
        LexIgnoresOrigin(code, j, o1, o2);
        var t1, t2 := LexFrom(code, i, o1), LexFrom(code, i, o2);
        var r1, r2 := LexFrom(code, j, o1), LexFrom(code, j, o2);
        forall k | 0 <= k < |t1|
          ensures t1[k].kind == t2[k].kind && t1[k].lexeme == t2[k].lexeme
        {
          if k > 0 {
            assert t1[k] == r1[k - 1] && t2[k] == r2[k - 1];
          }
        }
      }
    }
  }

  /** What a text writes does not depend on the line and column the lexer counts from. */
  lemma TraceIgnoresOrigin(code: string, o1: Location, o2: Location)
    ensures ExecuteTrace(code, o1) == ExecuteTrace(code, o2)
  {
    LexedTokensAreValid(code, o1);
    LexIgnoresOrigin(code, 0, o1, o2);
    ParsingProperties.ParseIgnoresPositions(Lex(code, o1), Lex(code, o2), 0);
  }
}
