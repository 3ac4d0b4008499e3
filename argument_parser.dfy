/**
  The command-line argument parser of cli/src/services/argument_parser.cpp:
  the first argument after the program name is the command, resolved
  through a table of aliases, and everything after it is passed on.
 */
module CommandLine {
  /** A resolved command and the arguments that follow it. */
  datatype Invocation = Invocation(command: string, arguments: seq<string>)

  /** The alias table a new parser holds. */
  const StandardAliases: map<string, string> :=
    map["--version" := "version", "-v" := "version", "--help" := "help", "-h" := "help"]

  /** The command an alias stands for; a name that is not an alias stands for itself. */
  function Resolve(aliases: map<string, string>, name: string): string
  {
    if name in aliases then aliases[name] else name
  }

  /**
    What the parser makes of `argv` (`argv[0]` is the program name, and
    `|argv|` is `argc`): `help` when no command is given, and otherwise the
    resolved command with the rest of the arguments.
   */
  function Interpret(aliases: map<string, string>, argv: seq<string>): Invocation
  {
    if |argv| < 2 then Invocation("help", [])
    else Invocation(Resolve(aliases, argv[1]), argv[2..])
  }

  class ArgumentParser {
    var aliases: map<string, string>

    constructor ()
      ensures aliases == StandardAliases
    {
      aliases := map[];
      new;
      aliases := aliases["--version" := "version"];
      aliases := aliases["-v" := "version"];
      aliases := aliases["--help" := "help"];
      aliases := aliases["-h" := "help"];
    }

    /** Splits the command line; the alias table is only read. */
    method Parse(argv: seq<string>) returns (r: Invocation)
      ensures r == Interpret(aliases, argv)
    {
      if |argv| < 2 {
        return Invocation("help", []);
      }
      var command := argv[1];
      var alias: string;
      if command in aliases {
        alias := aliases[command];
      } else {
        alias := command;
      }
      return Invocation(alias, argv[2..]);
    }
  }

  // ----- properties -----

  /** Without a command the parser asks for help, and passes no arguments. */
  lemma NoCommandMeansHelp(aliases: map<string, string>, argv: seq<string>)
    requires |argv| < 2
    ensures Interpret(aliases, argv) == Invocation("help", [])
  {
  }

  /** `--version` and `-v` mean `version`; `--help` and `-h` mean `help`. */
  lemma StandardAliasesResolve()
    ensures Resolve(StandardAliases, "--version") == "version" && Resolve(StandardAliases, "-v") == "version"
    ensures Resolve(StandardAliases, "--help") == "help" && Resolve(StandardAliases, "-h") == "help"
  {
  }

  /**
    With the standard table a command is `version`, `help` or the name as
    given, and resolving a resolved command changes nothing more.
   */
  lemma StandardResolutionIsFinal(name: string)
    ensures var c := Resolve(StandardAliases, name);
      && (c == "version" || c == "help" || c == name)
      && Resolve(StandardAliases, c) == c
  {
    assert "version" !in StandardAliases && "help" !in StandardAliases;
  }

  /** A command that is not an alias is passed on exactly as given. */
  lemma UnknownCommandUnchanged(aliases: map<string, string>, argv: seq<string>)
    requires |argv| >= 2 && argv[1] !in aliases
    ensures Interpret(aliases, argv).command == argv[1]
  {
  }

  /** The arguments after the command are passed on in order and untouched: `argc - 2` of them. */
  lemma ArgumentsPassThrough(aliases: map<string, string>, argv: seq<string>)
    requires |argv| >= 2
    ensures var args := Interpret(aliases, argv).arguments;
      && |args| == |argv| - 2
      && forall k :: 0 <= k < |args| ==> args[k] == argv[k + 2]
  {
  }

  /**
    Only the command is resolved: two command lines with the same command
    give the same resolved command whatever follows, and an argument that is
    itself an alias is not resolved.
   */
  lemma OnlyCommandIsResolved(aliases: map<string, string>, argv: seq<string>, other: seq<string>)
    requires |argv| >= 2 && |other| >= 2 && argv[1] == other[1]
    ensures Interpret(aliases, argv).command == Interpret(aliases, other).command
    ensures Interpret(aliases, argv).arguments == argv[2..]
  {
  }
}
