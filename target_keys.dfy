/** The names of all targets. */
module TargetKeys {
  const Build: string := "build"
  const Clean: string := "clean"
  const Coverage: string := "coverage"
  const Default: string := "default"
  const Dotnet: string := "dotnet"
  const Lint: string := "lint"
  const Solution: string := "solution"
  const Test: string := "test"
  const TestIntegration: string := "test.integration"
  const TestUnit: string := "test.unit"

  const All: seq<string> := [Build, Clean, Coverage, Default, Dotnet, Lint, Solution, Test, TestIntegration, TestUnit]

  /** The ten keys are ten different names. */
  lemma KeysDistinct()
    ensures |All| == 10
    ensures forall i, j | 0 <= i < j < |All| :: All[i] != All[j]
  {
  }
}
