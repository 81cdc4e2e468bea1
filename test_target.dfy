/**
 * The test targets: one per test suite, each running `dotnet test` for every project of the
 * suite, and the aggregate `test` target that stands for all suites.
 */
module TestTarget {
  import opened Wrappers
  import opened Process
  import opened DevEnvironment
  import DotnetCli
  import ArtifactPaths
  import TargetKeys
  import opened ProjectRecords
  import opened Targets

  const Suites: seq<TestSuite> := [
    TestSuite(TargetKeys.TestIntegration, "Tests integrations between components of the application.",
              [TestProject("integration", "tests/IntegrationTests")]),
    TestSuite(TargetKeys.TestUnit, "Tests individual components of the application",
              [TestProject("domain", "tests/Domain.Facts")])
  ]

  const AggregateDescription: string := "Executes automated test suites."

  /** The items a suite target fans out over: its projects, in order. */
  function ProjectItems(projects: seq<TestProject>): (items: seq<Item>)
    ensures |items| == |projects|
    ensures forall i | 0 <= i < |projects| :: items[i] == TestItem(projects[i])
  {
    seq(|projects|, i requires 0 <= i < |projects| => TestItem(projects[i]))
  }

  /** The target of one suite: after `dotnet`, the action once per project. */
  function SuiteDefinition(suite: TestSuite): TargetDef
  {
    TargetDef(suite.name, Some(suite.description), [TargetKeys.Dotnet], ForEach(ProjectItems(suite.projects)))
  }

  /** `Suites.Select(suite => suite.Name)`. */
  function SuiteNames(suites: seq<TestSuite>): (names: seq<string>)
    ensures |names| == |suites|
    ensures forall i | 0 <= i < |suites| :: names[i] == suites[i].name
  {
    seq(|suites|, i requires 0 <= i < |suites| => suites[i].name)
  }

  /** The aggregate `test` target: no action, depending on every suite in order. */
  function AggregateDefinition(suites: seq<TestSuite>): TargetDef
  {
    TargetDef(TargetKeys.Test, Some(AggregateDescription), SuiteNames(suites), NoAction)
  }

  /** Everything `Setup` registers for `suites`, in registration order. */
  function Definitions(suites: seq<TestSuite>): seq<TargetDef>
  {
    seq(|suites|, i requires 0 <= i < |suites| => SuiteDefinition(suites[i])) + [AggregateDefinition(suites)]
  }

  /**
   * One target per suite, in suite order, each after exactly `dotnet` and fanning out over the
   * suite's projects; then `test`, without action, after exactly the suites; one more target
   * than there are suites.
   */
  lemma DefinitionsSpec(suites: seq<TestSuite>)
    ensures var defs := Definitions(suites);
      && |defs| == |suites| + 1
      && (forall i | 0 <= i < |suites| ::
            && defs[i].name == suites[i].name
            && defs[i].description == Some(suites[i].description)
            && defs[i].dependsOn == [TargetKeys.Dotnet]
            && defs[i].body.ForEach?
            && defs[i].body.items == ProjectItems(suites[i].projects))
      && defs[|suites|].name == TargetKeys.Test
      && !defs[|suites|].HasAction()
      && |defs[|suites|].dependsOn| == |suites|
      && (forall i | 0 <= i < |suites| :: defs[|suites|].dependsOn[i] == suites[i].name)
  {
  }

  /** For the two suites of the repository: three targets, and `test` runs integration then unit. */
  lemma RepositorySuites()
    ensures |Definitions(Suites)| == 3
    ensures Definitions(Suites)[2] == TargetDef("test", Some("Executes automated test suites."),
                                                ["test.integration", "test.unit"], NoAction)
    ensures Definitions(Suites)[0].name == "test.integration" && Definitions(Suites)[1].name == "test.unit"
  {
    DefinitionsSpec(Suites);
    assert SuiteNames(Suites) == ["test.integration", "test.unit"];
  }

  /** `Setup`: registers the suite targets in a loop, then the aggregate. */
  method Setup(targets: TargetCollection)
    modifies targets
    ensures targets.definitions == old(targets.definitions) + Definitions(Suites)
  {
    ghost var before := targets.definitions;
    var i := 0;
    while i < |Suites|
      invariant 0 <= i <= |Suites|
      invariant targets.definitions == before + seq(i, k requires 0 <= k < i => SuiteDefinition(Suites[k]))
    {
      var suite := Suites[i];
      targets.Add(TargetDef(suite.name, Some(suite.description), [TargetKeys.Dotnet], ForEach(ProjectItems(suite.projects))));
      i := i + 1;
    }
    targets.Add(TargetDef(TargetKeys.Test, Some(AggregateDescription), SuiteNames(Suites), NoAction));
  }

  /** The extra `dotnet test` arguments for `project`. */
  function TestArguments(project: TestProject): seq<string>
  {
    [
      "--no-build",
      "--collect \"XPlat Code Coverage\"",
      "--logger trx",
      "--results-directory " + ArtifactPaths.TestResultPath(project.name)
    ]
  }

  /** The one `dotnet` call per project. */
  function TestInvocation(project: TestProject, configuration: string): Invocation
  {
    DotnetCli.RunInvocation("test " + project.path, configuration, TestArguments(project))
  }

  /**
   * The four extra arguments in order; the results go to the project's own directory below the
   * test results, and two projects with different names never share it.
   */
  lemma TestArgumentsSpec(project: TestProject, other: TestProject)
    ensures |TestArguments(project)| == 4
    ensures TestArguments(project)[..3] == ["--no-build", "--collect \"XPlat Code Coverage\"", "--logger trx"]
    ensures TestArguments(project)[3] == "--results-directory " + "artifacts/tests/results/" + project.name
    ensures project.name != other.name ==> TestArguments(project)[3] != TestArguments(other)[3]
  {
    ArtifactPaths.TestResultPathRoundTrip(project.name);
    ArtifactPaths.TestResultPathRoundTrip(other.name);
    var prefix := "--results-directory " + ArtifactPaths.TestResults + "/";
    assert TestArguments(project)[3] == prefix + project.name;
    assert TestArguments(other)[3] == prefix + other.name;
    assert (prefix + project.name)[|prefix|..] == project.name;
    assert (prefix + other.name)[|prefix|..] == other.name;
  }

  /** The whole `dotnet test` command line for `project`. */
  lemma TestInvocationSpec(project: TestProject, configuration: string)
    ensures TestInvocation(project, configuration).program == "dotnet"
    ensures TestInvocation(project, configuration).arguments
      == Strings.Join(' ', DotnetCli.FixedTokens("test " + project.path, configuration) + TestArguments(project))
  {
    DotnetCli.ArgumentsAreSpaceJoined("test " + project.path, configuration, TestArguments(project));
  }

  /** `Execute(project)`: runs `dotnet test` once for the project. */
  method Execute(project: TestProject, buildConfiguration: DevEnvironmentVariable, env: map<string, string>,
                 exitCode: Invocation -> int)
    returns (invocation: Invocation, outcome: Outcome<ExitCodeError>)
    requires buildConfiguration.Valid()
    modifies buildConfiguration
    ensures buildConfiguration.Valid() && buildConfiguration.hydratedValue
    ensures forall later :: buildConfiguration.Current(later) == old(buildConfiguration.Current(env))
    ensures invocation == TestInvocation(project, old(buildConfiguration.Current(env)))
    ensures outcome == Process.Run(invocation, exitCode)
  {
    var testResultsPath := ArtifactPaths.TestResultPath(project.name);
    invocation, outcome := DotnetCli.Run(buildConfiguration, env, "test " + project.path,
      ["--no-build", "--collect \"XPlat Code Coverage\"", "--logger trx", "--results-directory " + testResultsPath],
      exitCode);
  }
}
