/** Runs the `dotnet` command-line tool with the build configuration and fixed options. */
module DotnetCli {
  import opened Wrappers
  import opened Strings
  import opened Process
  import opened DevEnvironment

  /** `ArgumentsFormat` is "{0} --configuration {1} --verbosity minimal --nologo{2}". */
  function ArgumentsString(command: string, configuration: string, additional: string): string
  {
    command + " --configuration " + configuration + " --verbosity minimal --nologo" + additional
  }

  /** The `{2}` slot: empty without extra arguments, else a space and the arguments joined by spaces. */
  function AdditionalArguments(args: seq<string>): string
  {
    if |args| != 0 then " " + Join(' ', args) else ""
  }

  /** The single invocation `Run(command, args)` makes once the configuration has been read. */
  function RunInvocation(command: string, configuration: string, args: seq<string>): (inv: Invocation)
    ensures inv.program == "dotnet"
  {
    Invocation("dotnet", ArgumentsString(command, configuration, AdditionalArguments(args)))
  }

  /** The fixed words between the command and the extra arguments. */
  function FixedTokens(command: string, configuration: string): seq<string>
  {
    [command, "--configuration", configuration, "--verbosity", "minimal", "--nologo"]
  }

  lemma JoinSix(a: string, b: string, c: string, d: string, e: string, f: string)
    ensures Join(' ', [a, b, c, d, e, f]) == a + " " + b + " " + c + " " + d + " " + e + " " + f
  {
    JoinCons(' ', e, [f]);
    assert [e, f] == [e] + [f];
    JoinCons(' ', d, [e, f]);
    assert [d, e, f] == [d] + [e, f];
    JoinCons(' ', c, [d, e, f]);
    assert [c, d, e, f] == [c] + [d, e, f];
    JoinCons(' ', b, [c, d, e, f]);
    assert [b, c, d, e, f] == [b] + [c, d, e, f];
    JoinCons(' ', a, [b, c, d, e, f]);
    assert [a, b, c, d, e, f] == [a] + [b, c, d, e, f];
  }

  lemma Regroup(a: string, b: string, c: string, d: string, e: string, f: string)
    ensures a + " " + b + " " + c + " " + d + " " + e + " " + f
      == a + (" " + b + " ") + c + (" " + d + " " + e + " " + f)
  {
  }

  /** The fixed part of the argument string is its words joined by single spaces. */
  lemma FixedTokensJoined(command: string, configuration: string)
    ensures Join(' ', FixedTokens(command, configuration))
      == command + " --configuration " + configuration + " --verbosity minimal --nologo"
  {
    JoinSix(command, "--configuration", configuration, "--verbosity", "minimal", "--nologo");
    Regroup(command, "--configuration", configuration, "--verbosity", "minimal", "--nologo");
    assert " " + "--configuration" + " " == " --configuration ";
    assert " " + "--verbosity" + " " + "minimal" + " " + "--nologo" == " --verbosity minimal --nologo";
  }

  /**
   * The argument string is the command, the fixed options and the extra arguments, verbatim and
   * in order, separated by single spaces: no quoting and no escaping.
   */
  lemma ArgumentsAreSpaceJoined(command: string, configuration: string, args: seq<string>)
    ensures RunInvocation(command, configuration, args).arguments
      == Join(' ', FixedTokens(command, configuration) + args)
  {
    var fixed := FixedTokens(command, configuration);
    FixedTokensJoined(command, configuration);
    if |args| != 0 {
      JoinAppend(' ', fixed, args);
    } else {
      assert fixed + args == fixed;
    }
  }

  /** Without extra arguments the string ends exactly in "--nologo". */
  lemma NoExtraArguments(command: string, configuration: string)
    ensures RunInvocation(command, configuration, []).arguments
      == command + " --configuration " + configuration + " --verbosity minimal --nologo"
  {
  }

  /**
   * Nothing is quoted or escaped: cutting the argument string at spaces gives back exactly the
   * words that went in if and only if none of them contains a space. A word with a space must
   * bring its own quotes, as the test target's `--collect "XPlat Code Coverage"` does.
   */
  lemma ArgumentsRecoverable(command: string, configuration: string, args: seq<string>)
    ensures Split(' ', RunInvocation(command, configuration, args).arguments)
      == FixedTokens(command, configuration) + args
      <==> (' ' !in command && ' ' !in configuration && forall i :: 0 <= i < |args| ==> ' ' !in args[i])
  {
    ArgumentsAreSpaceJoined(command, configuration, args);
    var all := FixedTokens(command, configuration) + args;
    if ' ' !in command && ' ' !in configuration && forall i :: 0 <= i < |args| ==> ' ' !in args[i] {
      forall i | 0 <= i < |all| ensures ' ' !in all[i] {
        if i >= 6 {
          assert all[i] == args[i - 6];
        }
      }
      SplitJoin(' ', all);
    } else {
      var pieces := Split(' ', RunInvocation(command, configuration, args).arguments);
      if ' ' in command {
        assert ' ' in all[0];
      } else if ' ' in configuration {
        assert ' ' in all[2];
      } else {
        var i :| 0 <= i < |args| && ' ' in args[i];
        assert ' ' in all[6 + i];
      }
      assert pieces != all;
    }
  }

  /**
   * `DotnetCli.Run`: reads the build configuration setting (a cached read after the first), then
   * runs `dotnet` exactly once with the composed argument string.
   */
  method Run(buildConfiguration: DevEnvironmentVariable, env: map<string, string>,
             command: string, args: seq<string>, exitCode: Invocation -> int)
    returns (invocation: Invocation, outcome: Outcome<ExitCodeError>)
    requires buildConfiguration.Valid()
    modifies buildConfiguration`hydratedValue, buildConfiguration`field, buildConfiguration`lookups
    ensures buildConfiguration.Valid() && buildConfiguration.hydratedValue
    ensures forall later :: buildConfiguration.Current(later) == old(buildConfiguration.Current(env))
    ensures invocation == RunInvocation(command, old(buildConfiguration.Current(env)), args)
    ensures outcome == Process.Run(invocation, exitCode)
  {
    var additionalArgumentsString := "";
    if |args| != 0 {
      additionalArgumentsString := " " + Join(' ', args);
    }
    var configuration := buildConfiguration.Value(env);
    invocation := Invocation("dotnet", ArgumentsString(command, configuration, additionalArgumentsString));
    outcome := Process.Run(invocation, exitCode);
  }
}
