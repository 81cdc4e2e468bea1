/** The `build` target: a name for the complete build, with no action of its own. */
module BuildTarget {
  import opened Wrappers
  import TargetKeys
  import opened Targets

  const Dependencies: seq<string> := [TargetKeys.Dotnet]

  const Definition: TargetDef :=
    TargetDef(TargetKeys.Build, Some("Executes the complete build process."), Dependencies, NoAction)

  /** `Setup`: registers the target after `dotnet`, without action. */
  method Setup(targets: TargetCollection)
    modifies targets
    ensures targets.definitions == old(targets.definitions) + [Definition]
  {
    targets.Add(Definition);
  }
}
