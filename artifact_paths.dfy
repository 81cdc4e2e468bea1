/** Where the build tool puts its outputs, all below `artifacts`. */
module ArtifactPaths {
  import opened Wrappers
  import opened Strings

  const Root: string := "artifacts"

  const Executables: string := Root + "/executables"

  const LintResults: string := Root + "/linting"

  const Solution: string := Root + "/__PROJECT__.slnf"

  const Tests: string := Root + "/tests"
  const TestCoverage: string := Tests + "/coverage"
  const TestResults: string := Tests + "/results"
  const TestResultsCoverageGlob: string := TestResults + "/*/*/coverage.cobertura.xml"

  /** The fixed text in front of the first substitution of `ExecutableFormat` (note the double slash). */
  const ExecutablePrefix: string := Executables + "//"

  /** `ExecutableFormat` rendered with `{0} = name` and `{1} = runtime`. */
  function ExecutablePath(name: string, runtime: string): string
  {
    ExecutablePrefix + name + "/" + runtime
  }

  /** `TestResultFormat` rendered with `{0} = name`. */
  function TestResultPath(name: string): string
  {
    TestResults + "/" + name
  }

  /** Reads the name and runtime back out of a path made by `ExecutablePath`. */
  function ParseExecutablePath(path: string): Option<(string, string)>
  {
    if ExecutablePrefix <= path then
      var rest := path[|ExecutablePrefix|..];
      match IndexOf(rest, '/')
      case None => None
      case Some(i) => Some((rest[..i], rest[i + 1..]))
    else None
  }

  /** Reads the name back out of a path made by `TestResultPath`. */
  function ParseTestResultPath(path: string): Option<string>
  {
    if TestResults + "/" <= path then Some(path[|TestResults| + 1..]) else None
  }

  /** Every directory and file the tool names lies below `artifacts/`. */
  lemma PathsBelowRoot()
    ensures forall p | p in [Executables, LintResults, Solution, Tests, TestCoverage, TestResults, TestResultsCoverageGlob]
      :: Root + "/" <= p
  {
  }

  /** `ExecutableFormat` is "artifacts/executables//{0}/{1}": the name comes first, then the runtime. */
  lemma ExecutablePathRoundTrip(name: string, runtime: string)
    requires '/' !in name
    ensures ExecutablePath(name, runtime) == "artifacts/executables//" + name + "/" + runtime
    ensures ParseExecutablePath(ExecutablePath(name, runtime)) == Some((name, runtime))
  {
    var path := ExecutablePath(name, runtime);
    var rest := path[|ExecutablePrefix|..];
    assert rest == name + "/" + runtime;
    IndexOfAfter(name, '/', runtime);
    assert rest[..|name|] == name && rest[|name| + 1..] == runtime;
  }

  /** Two publish outputs share a directory only if they are for the same project and runtime. */
  lemma ExecutablePathInjective(name1: string, runtime1: string, name2: string, runtime2: string)
    requires '/' !in name1 && '/' !in name2
    requires ExecutablePath(name1, runtime1) == ExecutablePath(name2, runtime2)
    ensures name1 == name2 && runtime1 == runtime2
  {
    ExecutablePathRoundTrip(name1, runtime1);
    ExecutablePathRoundTrip(name2, runtime2);
  }

  /** For one project name, two runtimes give two different executable paths, whatever the name. */
  lemma ExecutablePathInjectiveInRuntime(name: string, runtime1: string, runtime2: string)
    requires ExecutablePath(name, runtime1) == ExecutablePath(name, runtime2)
    ensures runtime1 == runtime2
  {
    var prefix := ExecutablePrefix + name + "/";
    assert ExecutablePath(name, runtime1) == prefix + runtime1;
    assert ExecutablePath(name, runtime2) == prefix + runtime2;
    assert (prefix + runtime1)[|prefix|..] == runtime1;
    assert (prefix + runtime2)[|prefix|..] == runtime2;
  }

  /** `TestResultFormat` is "artifacts/tests/results/{0}", and the name can be read back. */
  lemma TestResultPathRoundTrip(name: string)
    ensures TestResultPath(name) == "artifacts/tests/results/" + name
    ensures ParseTestResultPath(TestResultPath(name)) == Some(name)
  {
    assert TestResultPath(name)[|TestResults| + 1..] == name;
  }

  /** The test paths written out. */
  lemma TestPathsExact()
    ensures TestResults == "artifacts/tests/results"
    ensures TestCoverage == "artifacts/tests/coverage"
    ensures TestResultsCoverageGlob == "artifacts/tests/results/*/*/coverage.cobertura.xml"
  {
    assert Tests == "artifacts/tests";
  }

  /** No space in the coverage paths, so each stays one word on a command line. */
  lemma TestPathsWithoutSpace()
    ensures ' ' !in TestCoverage && ' ' !in TestResultsCoverageGlob
  {
    assert ' ' !in Root && ' ' !in "/tests";
    assert ' ' !in "/coverage" && ' ' !in "/results";
    assert ' ' !in "/*/*/" && ' ' !in "coverage.cobertura.xml";
    assert "/*/*/coverage.cobertura.xml" == "/*/*/" + "coverage.cobertura.xml";
  }

  /** The coverage report and the test results are two different directories directly inside `Tests`. */
  lemma TestDirectoriesDistinct()
    ensures TestCoverage != TestResults
    ensures TestCoverage == Tests + "/coverage" && TestResults == Tests + "/results"
    ensures TestResultsCoverageGlob == TestResults + "/*/*/coverage.cobertura.xml"
    ensures Solution == "artifacts/__PROJECT__.slnf"
  {
    assert TestCoverage[|Tests| + 1] == 'c' && TestResults[|Tests| + 1] == 'r';
  }
}
