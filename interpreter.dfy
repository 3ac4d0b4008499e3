/**
  The tree-walking interpreter of runtime/src/frontend/interpreter.cpp (state
  declared in interpreter.hpp).

  `Evaluate` and `Run` are the reference definition: the value of an
  expression and what evaluating it writes, and the environment after a
  statement. The class `Interpreter` holds the environment the source keeps
  in `environment_`, and its methods are proved to agree with the reference
  definition. What the interpreter writes is an ordered trace of events.
 */
module Interpreting {
  import opened Common
  import opened Ast

  /**
    What the front end writes. `Printed(v)` is `v` followed by a space on
    standard output and `Newline` ends that line; `UndefinedVariable` and
    `ParserError` are lines on standard error.
   */
  datatype Event =
    | Printed(value: nat)
    | Newline
    | UndefinedVariable(name: string)
    | ParserError(message: string)

  /** Variable names and their values. */
  type Environment = map<string, nat>

  /** The value of an expression and what evaluating it wrote. */
  datatype Evaluation = Evaluation(value: nat, output: seq<Event>)

  /** The only callee that does anything. */
  const PrintName := "print"

  /** A number literal stands for its value; a string literal is not converted and stands for 0. */
  function LiteralNumber(v: LiteralValue): nat
  {
    match v
    case NumberValue(n) => n
    case StringValue(_) => 0
  }

  function Evaluate(env: Environment, e: Expr): Evaluation
    decreases e, 1
  {
    match e
    case Literal(v) => Evaluation(LiteralNumber(v), [])
    case Variable(x) =>
      if x in env then Evaluation(env[x], []) else Evaluation(0, [UndefinedVariable(x)])
    case Call(callee, args) =>
      Evaluation(0, if callee == PrintName then PrintArguments(env, args) + [Newline] else [])
  }

  /** What `print` writes for its arguments, evaluated left to right, before the line end. */
  function PrintArguments(env: Environment, args: seq<Expr>): seq<Event>
    decreases args, 0
  {
    if args == [] then []
    else
      var a := Evaluate(env, args[|args| - 1]);
      PrintArguments(env, args[..|args| - 1]) + a.output + [Printed(a.value)]
  }

  /** The value a declaration binds: its initializer's, or 0 without one. */
  function InitialValue(env: Environment, init: Option<Expr>): Evaluation
  {
    match init
    case None => Evaluation(0, [])
    case Some(e) => Evaluate(env, e)
  }

  /** The environment after a statement, and what the statement wrote. */
  datatype Outcome = Outcome(env: Environment, output: seq<Event>)

  function Run(env: Environment, s: Stmt): Outcome
  {
    match s
    case VarDecl(x, init) =>
      var v := InitialValue(env, init);
      Outcome(env[x := v.value], v.output)
    case ExprStmt(e) => Outcome(env, Evaluate(env, e).output)
  }

  /** The statements run one after another on one environment; their output is concatenated. */
  function RunProgram(env: Environment, prog: seq<Stmt>): Outcome
    decreases |prog|
  {
    if prog == [] then Outcome(env, [])
    else
      var first := RunProgram(env, prog[..|prog| - 1]);
      var last := Run(first.env, prog[|prog| - 1]);
      Outcome(last.env, first.output + last.output)
  }

  class Interpreter {
    var environment: Environment

    /** A new interpreter has no variables. */
    constructor ()
      ensures environment == map[]
    {
      environment := map[];
    }

    /** Runs one statement; only a declaration changes the environment. */
    method Execute(stmt: Stmt) returns (output: seq<Event>)
      modifies this
      ensures Outcome(environment, output) == Run(old(environment), stmt)
    {
      match stmt {
        case VarDecl(name, initializer) =>
          output := ExecVarDecl(name, initializer);
        case ExprStmt(expression) =>
          output := ExecExprStmt(expression);
      }
    }

    /** Binds `name` to the initializer's value, or to 0; an earlier binding is replaced. */
    method ExecVarDecl(name: string, initializer: Option<Expr>) returns (output: seq<Event>)
      modifies this
      ensures environment == old(environment)[name := InitialValue(old(environment), initializer).value]
      ensures output == InitialValue(old(environment), initializer).output
    {
      var value: nat := 0;
      output := [];
      if initializer.Some? {
        value, output := Eval(initializer.value);
      }
      environment := environment[name := value];
    }

    /** Evaluates the expression for what it writes; its value is discarded. */
    method ExecExprStmt(expression: Expr) returns (output: seq<Event>)
      ensures output == Run(environment, ExprStmt(expression)).output
    {
      var _, o := Eval(expression);
      output := o;
    }

    method Eval(e: Expr) returns (value: nat, output: seq<Event>)
      ensures Evaluation(value, output) == Evaluate(environment, e)
      decreases e, 1
    {
      match e {
        case Literal(v) =>
          value, output := LiteralNumber(v), [];
        case Variable(name) =>
          value, output := EvalVariable(name);
        case Call(callee, arguments) =>
          value, output := EvalCall(callee, arguments);
      }
    }

    /** The bound value, or 0 and a diagnostic naming the variable. */
    method EvalVariable(name: string) returns (value: nat, output: seq<Event>)
      ensures name in environment ==> value == environment[name] && output == []
      ensures name !in environment ==> value == 0 && output == [UndefinedVariable(name)]
    {
      if name in environment {
        return environment[name], [];
      }
      return 0, [UndefinedVariable(name)];
    }

    /** `print` writes each argument's value in order and then ends the line; every call is worth 0. */
    method EvalCall(callee: string, arguments: seq<Expr>) returns (value: nat, output: seq<Event>)
      ensures Evaluation(value, output) == Evaluate(environment, Call(callee, arguments))
      decreases arguments, 0
    {
      output := [];
      if callee == PrintName {
        for k := 0 to |arguments|
          invariant output == PrintArguments(environment, arguments[..k])
        {
          assert arguments[..k + 1][..k] == arguments[..k];
          var v, o := Eval(arguments[k]);
          output := output + o + [Printed(v)];
        }
        assert arguments[..|arguments|] == arguments;
        output := output + [Newline];
      }
      return 0, output;
    }
  }
}
