/** The `default` target, run when no target is named: stands for `build`. */
module DefaultTarget {
  import opened Wrappers
  import TargetKeys
  import opened Targets

  const Definition: TargetDef := TargetDef(TargetKeys.Default, None, [TargetKeys.Build], NoAction)

  /** `Setup`: registers the target after `build`, without description or action. */
  method Setup(targets: TargetCollection)
    modifies targets
    ensures targets.definitions == old(targets.definitions) + [Definition]
  {
    targets.Add(Definition);
  }
}
