/**
 * The `publish` target: publishes each listed project as a self-contained executable, once per
 * runtime identifier. The repository lists no projects yet.
 */
module PublishTarget {
  import opened Wrappers
  import opened Process
  import opened DevEnvironment
  import DotnetCli
  import ArtifactPaths
  import TargetKeys
  import opened ProjectRecords
  import opened Targets

  /**
   * The target's name. The target refers to a `Publish` key that the list of target keys does
   * not declare; "publish" is the name that key evidently stands for.
   */
  const Key: string := "publish"

  const Projects: seq<PublishProject> := []

  function ProjectItems(projects: seq<PublishProject>): (items: seq<Item>)
    ensures |items| == |projects|
    ensures forall i | 0 <= i < |projects| :: items[i] == PublishItem(projects[i])
  {
    seq(|projects|, i requires 0 <= i < |projects| => PublishItem(projects[i]))
  }

  const Definition: TargetDef :=
    TargetDef(Key, Some("Publishes projects as executables for release."), [TargetKeys.Dotnet], ForEach(ProjectItems(Projects)))

  /** `Setup`: registers the target after `dotnet`, fanning out over `Projects`. */
  method Setup(targets: TargetCollection)
    modifies targets
    ensures targets.definitions == old(targets.definitions) + [Definition]
  {
    targets.Add(Definition);
  }

  /** With no projects listed, the action runs for no item at all. */
  lemma NothingToPublish()
    ensures Definition.body == ForEach([])
    ensures Definition.dependsOn == ["dotnet"]
  {
  }

  /** The extra arguments for one runtime. */
  function PublishArguments(project: PublishProject, runtime: string): seq<string>
  {
    ["--runtime " + runtime, "--output " + ArtifactPaths.ExecutablePath(project.name, runtime)]
  }

  /** The `dotnet publish` call for one runtime. */
  function PublishInvocation(project: PublishProject, runtime: string, configuration: string): (inv: Invocation)
    ensures inv.program == "dotnet"
  {
    DotnetCli.RunInvocation("publish " + project.path, configuration, PublishArguments(project, runtime))
  }

  /** One call per runtime, in the order of the runtimes. */
  function PublishInvocations(project: PublishProject, configuration: string): (calls: seq<Invocation>)
    ensures |calls| == |project.runtimes|
    ensures forall i | 0 <= i < |calls| :: calls[i] == PublishInvocation(project, project.runtimes[i], configuration)
  {
    seq(|project.runtimes|, i requires 0 <= i < |project.runtimes| =>
      PublishInvocation(project, project.runtimes[i], configuration))
  }

  /**
   * The output of each runtime goes to "artifacts/executables//<name>/<runtime>", and two
   * runtimes of a project never share an output directory.
   */
  lemma PublishArgumentsSpec(project: PublishProject, runtime: string, otherRuntime: string)
    ensures PublishArguments(project, runtime)
      == ["--runtime " + runtime, "--output " + ("artifacts/executables//" + project.name + "/" + runtime)]
    ensures runtime != otherRuntime ==>
      PublishArguments(project, runtime)[1] != PublishArguments(project, otherRuntime)[1]
  {
    assert ArtifactPaths.ExecutablePrefix == "artifacts/executables//";
    if runtime != otherRuntime {
      var prefix := "--output ";
      var a := ArtifactPaths.ExecutablePath(project.name, runtime);
      var b := ArtifactPaths.ExecutablePath(project.name, otherRuntime);
      assert (prefix + a)[|prefix|..] == a && (prefix + b)[|prefix|..] == b;
      if a == b {
        ArtifactPaths.ExecutablePathInjectiveInRuntime(project.name, runtime, otherRuntime);
      }
    }
  }

  /**
   * The runtimes are published in order, one `dotnet publish` each, as long as they succeed:
   * the first failure ends the action with that failure and later runtimes are not published.
   */
  lemma PublishFailsFast(project: PublishProject, configuration: string, exitCode: Invocation -> int)
    ensures var t := RunAll(PublishInvocations(project, configuration), exitCode);
      && |t.invocations| <= |project.runtimes|
      && (forall i | 0 <= i < |t.invocations| ::
            t.invocations[i] == PublishInvocation(project, project.runtimes[i], configuration))
      && (forall i | 0 <= i < |t.invocations| - 1 :: exitCode(t.invocations[i]) == 0)
      && (t.outcome.Pass? <==>
            forall i | 0 <= i < |project.runtimes| ::
              exitCode(PublishInvocation(project, project.runtimes[i], configuration)) == 0)
      && (t.outcome.Pass? ==> |t.invocations| == |project.runtimes|)
      && (t.outcome.Fail? ==> exitCode(t.invocations[|t.invocations| - 1]) != 0)
  {
    var calls := PublishInvocations(project, configuration);
    RunAllFailsFast(calls, exitCode);
    var t := RunAll(calls, exitCode);
    assert t.invocations == calls[..|t.invocations|];
  }

  /**
   * `Execute(project)`: for each runtime in order, formats the output path and awaits one
   * `dotnet publish`; an exception ends the loop.
   */
  method Execute(project: PublishProject, buildConfiguration: DevEnvironmentVariable, env: map<string, string>,
                 exitCode: Invocation -> int)
    returns (invocations: seq<Invocation>, outcome: Outcome<ExitCodeError>)
    requires buildConfiguration.Valid()
    modifies buildConfiguration
    ensures buildConfiguration.Valid()
    ensures |project.runtimes| > 0 ==>
      buildConfiguration.hydratedValue
      && forall later :: buildConfiguration.Current(later) == old(buildConfiguration.Current(env))
    ensures |project.runtimes| == 0 ==> unchanged(buildConfiguration)
    ensures Trace(invocations, outcome)
      == RunAll(PublishInvocations(project, old(buildConfiguration.Current(env))), exitCode)
  {
    ghost var configuration := buildConfiguration.Current(env);
    ghost var all := PublishInvocations(project, configuration);
    invocations := [];
    outcome := Pass;
    var i := 0;
    while i < |project.runtimes|
      invariant 0 <= i <= |project.runtimes|
      invariant buildConfiguration.Valid()
      invariant buildConfiguration.Current(env) == configuration
      invariant i > 0 ==> buildConfiguration.hydratedValue && buildConfiguration.field.GetOr("") == configuration
      invariant i == 0 ==> unchanged(buildConfiguration)
      invariant RunAll(all[..i], exitCode) == Trace(invocations, Pass)
    {
      var runtime := project.runtimes[i];
      var executablePath := ArtifactPaths.ExecutablePath(project.name, runtime);
      var invocation, result := DotnetCli.Run(buildConfiguration, env, "publish " + project.path,
        ["--runtime " + runtime, "--output " + executablePath], exitCode);
      assert invocation == all[i];
      RunAllStep(all, i, invocations, exitCode);
      invocations := invocations + [invocation];
      if result.Fail? {
        outcome := result;
        return;
      }
      i := i + 1;
    }
    assert all[..i] == all;
  }
}
