/**
  What the interpreter of runtime/src/frontend/interpreter.cpp does, proved
  about the reference definition in module Interpreting: which variables
  exist after a program and what they hold, how many lines `print` ends,
  which diagnostics appear, and what `print` writes for the arguments the
  parser can produce.
 */
module InterpretingProperties {
  import opened Common
  import opened Ast
  import opened Interpreting
  import ParsingProperties

  // ----- the environment -----

  /** The names a program declares. */
  function DeclaredNames(prog: seq<Stmt>): set<string>
  {
    set k | 0 <= k < |prog| && prog[k].VarDecl? :: prog[k].name
  }

  lemma DeclaredNamesSnoc(prog: seq<Stmt>, s: Stmt)
    ensures DeclaredNames(prog + [s]) == DeclaredNames(prog) + (if s.VarDecl? then {s.name} else {})
  {
    var p := prog + [s];
    forall x | x in DeclaredNames(p)
      ensures x in DeclaredNames(prog) + (if s.VarDecl? then {s.name} else {})
    {
      var k :| 0 <= k < |p| && p[k].VarDecl? && p[k].name == x;
      if k < |prog| {
        assert prog[k] == p[k];
      }
    }
    forall x | x in DeclaredNames(prog)
      ensures x in DeclaredNames(p)
    {
      var k :| 0 <= k < |prog| && prog[k].VarDecl? && prog[k].name == x;
      assert p[k] == prog[k];
    }
    if s.VarDecl? {
      assert p[|prog|] == s;
    }
  }

  /** Running a program splits at any point: the second part runs on the environment the first leaves. */
  lemma {:induction false} RunProgramAppend(env: Environment, p: seq<Stmt>, q: seq<Stmt>)
    ensures var first := RunProgram(env, p);
      var second := RunProgram(first.env, q);
      RunProgram(env, p + q) == Outcome(second.env, first.output + second.output)
    decreases |q|
  {
    if q == [] {
      assert p + q == p;
    } else {
      var q' := q[..|q| - 1];
      assert (p + q)[..|p + q| - 1] == p + q';
      assert (p + q)[|p + q| - 1] == q[|q| - 1];
      RunProgramAppend(env, p, q');
      var first := RunProgram(env, p);
      var mid := RunProgram(first.env, q');
      var last := Run(mid.env, q[|q| - 1]);
      assert first.output + mid.output + last.output == first.output + (mid.output + last.output);
    }
  }

  /** After a program, the variables are the ones there before plus the ones it declares. */
  lemma {:induction false} VariablesAfterProgram(env: Environment, prog: seq<Stmt>)
    ensures RunProgram(env, prog).env.Keys == env.Keys + DeclaredNames(prog)
    decreases |prog|
  {
    if prog != [] {
      var init := prog[..|prog| - 1];
      var s := prog[|prog| - 1];
      assert init + [s] == prog;
      VariablesAfterProgram(env, init);
      DeclaredNamesSnoc(init, s);
    }
  }

  /** A variable that the program never declares keeps its value (or stays undefined). */
  lemma {:induction false} UndeclaredVariableUnchanged(env: Environment, prog: seq<Stmt>, x: string)
    requires x !in DeclaredNames(prog)
    ensures x in RunProgram(env, prog).env <==> x in env
    ensures x in env ==> RunProgram(env, prog).env[x] == env[x]
    decreases |prog|
  {
    if prog != [] {
      var init := prog[..|prog| - 1];
      var s := prog[|prog| - 1];
      assert init + [s] == prog;
      DeclaredNamesSnoc(init, s);
      UndeclaredVariableUnchanged(env, init, x);
    }
  }

  /**
    A variable holds the value its last declaration bound: a redeclaration
    replaces the earlier value, and later statements that do not declare it
    leave it alone.
   */
  lemma LastDeclarationWins(env: Environment, prog: seq<Stmt>, k: nat)
    requires k < |prog| && prog[k].VarDecl?
    requires prog[k].name !in DeclaredNames(prog[k + 1..])
    ensures prog[k].name in RunProgram(env, prog).env
    ensures var before := RunProgram(env, prog[..k]).env;
      RunProgram(env, prog).env[prog[k].name]
        == InitialValue(before, prog[k].initializer).value
  {
    var x := prog[k].name;
    assert prog[..k] + [prog[k]] + prog[k + 1..] == prog;
    assert prog[..k + 1] == prog[..k] + [prog[k]];
    RunProgramAppend(env, prog[..k + 1], prog[k + 1..]);
    assert prog[..k + 1][..k] == prog[..k];
    UndeclaredVariableUnchanged(RunProgram(env, prog[..k + 1]).env, prog[k + 1..], x);
    VariablesAfterProgram(env, prog);
    assert x in DeclaredNames(prog);
  }

  // ----- what evaluation writes -----

  /** The number of `print` calls that evaluation reaches: the arguments of other calls are not evaluated. */
  function PrintCalls(e: Expr): nat
    decreases e, 1
  {
    match e
    case Literal(_) => 0
    case Variable(_) => 0
    case Call(callee, args) => if callee == PrintName then 1 + PrintCallsIn(args) else 0
  }

  function PrintCallsIn(args: seq<Expr>): nat
    decreases args, 0
  {
    if args == [] then 0 else PrintCallsIn(args[..|args| - 1]) + PrintCalls(args[|args| - 1])
  }

  /** Every `print` that runs ends exactly one line, and nothing else ends a line. */
  lemma {:induction false} OneLinePerPrint(env: Environment, e: Expr)
    ensures multiset(Evaluate(env, e).output)[Newline] == PrintCalls(e)
    decreases e, 1
  {
    match e {
      case Literal(_) =>
      case Variable(_) =>
      case Call(callee, args) =>
        if callee == PrintName {
          LinesOfArguments(env, args);
        }
    }
  }

  lemma {:induction false} LinesOfArguments(env: Environment, args: seq<Expr>)
    ensures multiset(PrintArguments(env, args))[Newline] == PrintCallsIn(args)
    decreases args, 0
  {
    if args != [] {
      LinesOfArguments(env, args[..|args| - 1]);
      OneLinePerPrint(env, args[|args| - 1]);
    }
  }

  /** The variables that evaluation looks up. */
  function LookedUp(e: Expr): set<string>
    decreases e, 1
  {
    match e
    case Literal(_) => {}
    case Variable(x) => {x}
    case Call(callee, args) => if callee == PrintName then LookedUpIn(args) else {}
  }

  function LookedUpIn(args: seq<Expr>): set<string>
    decreases args, 0
  {
    if args == [] then {} else LookedUpIn(args[..|args| - 1]) + LookedUp(args[|args| - 1])
  }

  /** A diagnostic names a variable exactly when evaluation looks it up and it is not defined. */
  lemma {:induction false} DiagnosticsNameUndefinedVariables(env: Environment, e: Expr, x: string)
    ensures UndefinedVariable(x) in Evaluate(env, e).output <==> x in LookedUp(e) && x !in env
    decreases e, 1
  {
    match e {
      case Literal(_) =>
      case Variable(_) =>
      case Call(callee, args) =>
        if callee == PrintName {
          DiagnosticsOfArguments(env, args, x);
        }
    }
  }

  lemma {:induction false} DiagnosticsOfArguments(env: Environment, args: seq<Expr>, x: string)
    ensures UndefinedVariable(x) in PrintArguments(env, args) <==> x in LookedUpIn(args) && x !in env
    decreases args, 0
  {
    if args != [] {
      DiagnosticsOfArguments(env, args[..|args| - 1], x);
      DiagnosticsNameUndefinedVariables(env, args[|args| - 1], x);
    }
  }

  /** A call to anything but `print` writes nothing and is worth 0, even when its arguments are undefined. */
  lemma OtherCallsDoNothing(env: Environment, callee: string, args: seq<Expr>)
    requires callee != PrintName
    ensures Evaluate(env, Call(callee, args)) == Evaluation(0, [])
  {
  }

  // ----- print with the arguments the parser produces -----

  /** The values written to standard output, in order. */
  function PrintedValues(trace: seq<Event>): seq<nat>
    decreases |trace|
  {
    if trace == [] then []
    else
      var last := trace[|trace| - 1];
      PrintedValues(trace[..|trace| - 1]) + (if last.Printed? then [last.value] else [])
  }

  lemma {:induction false} PrintedValuesAppend(a: seq<Event>, b: seq<Event>)
    ensures PrintedValues(a + b) == PrintedValues(a) + PrintedValues(b)
    decreases |b|
  {
    if b == [] {
      assert a + b == a;
    } else {
      var b' := b[..|b| - 1];
      assert (a + b)[..|a + b| - 1] == a + b';
      assert (a + b)[|a + b| - 1] == b[|b| - 1];
      PrintedValuesAppend(a, b');
    }
  }

  /** The value of a number literal or a variable. */
  function ArgumentValue(env: Environment, a: Expr): nat
    requires ParsingProperties.IsArgument(a)
  {
    if a.Literal? then a.value.number else if a.name in env then env[a.name] else 0
  }

  /** The values of `print`'s arguments, in order. */
  function ArgumentValues(env: Environment, args: seq<Expr>): seq<nat>
    requires forall k :: 0 <= k < |args| ==> ParsingProperties.IsArgument(args[k])
    decreases |args|
  {
    if args == [] then [] else ArgumentValues(env, args[..|args| - 1]) + [ArgumentValue(env, args[|args| - 1])]
  }

  lemma {:induction false} ArgumentValuesAt(env: Environment, args: seq<Expr>)
    requires forall k :: 0 <= k < |args| ==> ParsingProperties.IsArgument(args[k])
    ensures |ArgumentValues(env, args)| == |args|
    ensures forall k :: 0 <= k < |args| ==> ArgumentValues(env, args)[k] == ArgumentValue(env, args[k])
    decreases |args|
  {
    if args != [] {
      ArgumentValuesAt(env, args[..|args| - 1]);
    }
  }

  /**
    `print` with number and variable arguments writes each argument's value
    in order, each followed by a space, and then one line end as the last
    thing it writes.
   */
  lemma PrintWritesArgumentValues(env: Environment, args: seq<Expr>)
    requires forall k :: 0 <= k < |args| ==> ParsingProperties.IsArgument(args[k])
    ensures var out := Evaluate(env, Call(PrintName, args)).output;
      && |PrintedValues(out)| == |args|
      && (forall k :: 0 <= k < |args| ==> PrintedValues(out)[k] == ArgumentValue(env, args[k]))
      && out[|out| - 1] == Newline
      && multiset(out)[Newline] == 1
  {
    PrintedValuesOfCall(env, args);
    ArgumentValuesAt(env, args);
    OneLinePerPrint(env, Call(PrintName, args));
    NoPrintInArguments(args);
  }

  lemma PrintedValuesOfCall(env: Environment, args: seq<Expr>)
    requires forall k :: 0 <= k < |args| ==> ParsingProperties.IsArgument(args[k])
    ensures PrintedValues(Evaluate(env, Call(PrintName, args)).output) == ArgumentValues(env, args)
  {
    ArgumentsWriteValues(env, args);
    PrintedValuesAppend(PrintArguments(env, args), [Newline]);
    assert PrintedValues([Newline]) == [] by {
      assert [Newline][..0] == [];
    }
  }

  lemma {:induction false} NoPrintInArguments(args: seq<Expr>)
    requires forall k :: 0 <= k < |args| ==> ParsingProperties.IsArgument(args[k])
    ensures PrintCallsIn(args) == 0
    decreases |args|
  {
    if args != [] {
      NoPrintInArguments(args[..|args| - 1]);
    }
  }

  lemma {:induction false} ArgumentsWriteValues(env: Environment, args: seq<Expr>)
    requires forall k :: 0 <= k < |args| ==> ParsingProperties.IsArgument(args[k])
    ensures PrintedValues(PrintArguments(env, args)) == ArgumentValues(env, args)
    decreases |args|
  {
    if args != [] {
      var init := args[..|args| - 1];
      var a := args[|args| - 1];
      var v := Evaluate(env, a);
      ArgumentsWriteValues(env, init);
      assert PrintArguments(env, args) == PrintArguments(env, init) + (v.output + [Printed(v.value)]);
      PrintedValuesAppend(PrintArguments(env, init), v.output + [Printed(v.value)]);
      ArgumentWritesValue(env, a);
    }
  }

  /** One argument of `print` writes its value, after a diagnostic if it is an undefined variable. */
  lemma ArgumentWritesValue(env: Environment, a: Expr)
    requires ParsingProperties.IsArgument(a)
    ensures PrintedValues(Evaluate(env, a).output + [Printed(Evaluate(env, a).value)]) == [ArgumentValue(env, a)]
  {
    var v := Evaluate(env, a);
    PrintedValuesAppend(v.output, [Printed(v.value)]);
    if v.output != [] {
      assert v.output == [UndefinedVariable(a.name)];
      assert v.output[..0] == [];
    }
    assert [Printed(v.value)][..0] == [];
  }

  // ----- the interpreter reports no syntax errors -----

  /** Evaluation writes values, line ends and undefined-variable diagnostics, never a syntax error. */
  lemma {:induction false} EvaluationWritesNoParserError(env: Environment, e: Expr)
    ensures forall ev :: ev in Evaluate(env, e).output ==> !ev.ParserError?
    decreases e, 1
  {
    match e {
      case Literal(_) =>
      case Variable(_) =>
      case Call(callee, args) =>
        if callee == PrintName {
          ArgumentsWriteNoParserError(env, args);
        }
    }
  }

  lemma {:induction false} ArgumentsWriteNoParserError(env: Environment, args: seq<Expr>)
    ensures forall ev :: ev in PrintArguments(env, args) ==> !ev.ParserError?
    decreases args, 0
  {
    if args != [] {
      ArgumentsWriteNoParserError(env, args[..|args| - 1]);
      EvaluationWritesNoParserError(env, args[|args| - 1]);
    }
  }

  lemma {:induction false} ProgramWritesNoParserError(env: Environment, prog: seq<Stmt>)
    ensures forall ev :: ev in RunProgram(env, prog).output ==> !ev.ParserError?
    decreases |prog|
  {
    if prog != [] {
      var init := prog[..|prog| - 1];
      ProgramWritesNoParserError(env, init);
      match prog[|prog| - 1] {
        case VarDecl(_, init) =>
          if init.Some? {
            EvaluationWritesNoParserError(RunProgram(env, prog[..|prog| - 1]).env, init.value);
          }
        case ExprStmt(e) =>
          EvaluationWritesNoParserError(RunProgram(env, prog[..|prog| - 1]).env, e);
      }
    }
  }
}
