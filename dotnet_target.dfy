/** The `dotnet` target: builds the solution filter, warnings as errors unless building locally. */
module DotnetTarget {
  import opened Wrappers
  import opened Process
  import Strings
  import opened DevEnvironment
  import opened EnvironmentVariables
  import DotnetCli
  import ArtifactPaths
  import TargetKeys
  import opened Targets

  const Definition: TargetDef :=
    TargetDef(TargetKeys.Dotnet, Some("Builds the solution into output binaries."), [TargetKeys.Clean], Action)

  /** `Setup`: registers the target, after `clean`, with an action. */
  method Setup(targets: TargetCollection)
    modifies targets
    ensures targets.definitions == old(targets.definitions) + [Definition]
  {
    targets.Add(Definition);
  }

  const Command: string := "build " + ArtifactPaths.Solution

  /** The extra arguments: "/warnaserror" exactly when the local-build flag is off. */
  function ExtraArguments(localBuild: bool): (args: seq<string>)
  {
    if localBuild then [] else ["/warnaserror"]
  }

  /** The one `dotnet` call the action makes. */
  function BuildInvocation(configuration: string, localBuild: bool): Invocation
  {
    DotnetCli.RunInvocation(Command, configuration, ExtraArguments(localBuild))
  }

  /**
   * At most one extra argument, and it is "/warnaserror", present if and only if the local-build
   * flag is off; the command builds the solution filter.
   */
  lemma ExtraArgumentsSpec(localBuild: bool)
    ensures |ExtraArguments(localBuild)| <= 1
    ensures "/warnaserror" in ExtraArguments(localBuild) <==> !localBuild
    ensures forall a | a in ExtraArguments(localBuild) :: a == "/warnaserror"
    ensures Command == "build artifacts/__PROJECT__.slnf"
  {
  }

  /** The full argument string `dotnet` gets. */
  lemma BuildArguments(configuration: string, localBuild: bool)
    ensures BuildInvocation(configuration, localBuild).program == "dotnet"
    ensures BuildInvocation(configuration, localBuild).arguments
      == Command + " --configuration " + configuration + " --verbosity minimal --nologo"
         + (if localBuild then "" else " /warnaserror")
  {
    var extra := if localBuild then "" else " /warnaserror";
    assert DotnetCli.AdditionalArguments(ExtraArguments(localBuild)) == extra by {
      if !localBuild {
        assert Strings.Join(' ', ["/warnaserror"]) == "/warnaserror";
      }
    }
  }

  /**
   * `Execute`: reads the local-build flag, collects the extra arguments in a list, and runs
   * `dotnet build` once through `DotnetCli.Run`, which reads the configuration.
   */
  method Execute(vars: Variables, env: map<string, string>, exitCode: Invocation -> int)
    returns (invocation: Invocation, outcome: Outcome<ExitCodeError>)
    requires vars.Valid()
    modifies vars.LocalBuild, vars.BuildConfiguration
    ensures vars.Valid()
    ensures vars.BuildConfiguration.hydratedValue && vars.LocalBuild.hydratedValue
    ensures forall later :: vars.BuildConfiguration.Current(later) == old(vars.BuildConfiguration.Current(env))
    ensures forall later :: vars.LocalBuild.Current(later) == old(vars.LocalBuild.Current(env))
    ensures invocation == BuildInvocation(old(vars.BuildConfiguration.Current(env)),
                                          Truthy(old(vars.LocalBuild.Current(env))))
    ensures outcome == Process.Run(invocation, exitCode)
  {
    var arguments: seq<string> := [];
    var localBuild := vars.LocalBuild.IsTruthy(env);
    if !localBuild {
      arguments := arguments + ["/warnaserror"];
    }
    invocation, outcome := DotnetCli.Run(vars.BuildConfiguration, env, Command, arguments, exitCode);
  }
}
