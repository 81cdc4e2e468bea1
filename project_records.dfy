/** The records the targets fan out over. */
module ProjectRecords {

  /** A test project: a name for its results directory and the path given to `dotnet test`. */
  datatype TestProject = TestProject(name: string, path: string)

  /** A test suite: one target that runs `dotnet test` for each of its projects. */
  datatype TestSuite = TestSuite(name: string, description: string, projects: seq<TestProject>)

  /** A project published once for each of its runtime identifiers. */
  datatype PublishProject = PublishProject(name: string, path: string, runtimes: seq<string>)
}
