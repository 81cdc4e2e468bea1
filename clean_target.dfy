/** The `clean` target: removes the build outputs of the solution filter. */
module CleanTarget {
  import opened Wrappers
  import opened Process
  import opened DevEnvironment
  import DotnetCli
  import ArtifactPaths
  import TargetKeys
  import opened Targets

  const Definition: TargetDef :=
    TargetDef(TargetKeys.Clean, Some("Cleans .NET build artifacts from prior executions."), [TargetKeys.Solution], Action)

  /** `Setup`: registers the target, after `solution`, with an action. */
  method Setup(targets: TargetCollection)
    modifies targets
    ensures targets.definitions == old(targets.definitions) + [Definition]
  {
    targets.Add(Definition);
  }

  const Command: string := "clean " + ArtifactPaths.Solution

  /** `Execute`: one `dotnet clean` of the solution filter, without extra arguments. */
  method Execute(buildConfiguration: DevEnvironmentVariable, env: map<string, string>, exitCode: Invocation -> int)
    returns (invocation: Invocation, outcome: Outcome<ExitCodeError>)
    requires buildConfiguration.Valid()
    modifies buildConfiguration
    ensures buildConfiguration.Valid() && buildConfiguration.hydratedValue
    ensures forall later :: buildConfiguration.Current(later) == old(buildConfiguration.Current(env))
    ensures invocation == Invocation("dotnet", Command + " --configuration " + old(buildConfiguration.Current(env))
                                               + " --verbosity minimal --nologo")
    ensures outcome == Process.Run(invocation, exitCode)
  {
    invocation, outcome := DotnetCli.Run(buildConfiguration, env, Command, [], exitCode);
    DotnetCli.NoExtraArguments(Command, old(buildConfiguration.Current(env)));
  }
}
