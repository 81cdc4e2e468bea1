/**
 * The `coverage` target: turns the collected coverage files into an HTML report tagged with the
 * current commit.
 */
module CoverageTarget {
  import opened Wrappers
  import opened Strings
  import opened Process
  import opened GitCli
  import ArtifactPaths
  import TargetKeys
  import opened Targets

  const Definition: TargetDef :=
    TargetDef(TargetKeys.Coverage, Some("Generates a code coverage report from test results."), [TargetKeys.Test], Action)

  /** `Setup`: registers the target, after `test`, with an action. */
  method Setup(targets: TargetCollection)
    modifies targets
    ensures targets.definitions == old(targets.definitions) + [Definition]
  {
    targets.Add(Definition);
  }

  /** `AssemblyPatternFormat` "{0}__PROJECT__.**{1}" rendered with a sign and a suffix. */
  function AssemblyPattern(sign: string, suffix: string): string
  {
    sign + "__PROJECT__.**" + suffix
  }

  /** Include every project assembly, then exclude the tooling and test assemblies. */
  const AssemblyFilterPatterns: seq<string> := [
    AssemblyPattern("+", ""),
    AssemblyPattern("-", "Dev"),
    AssemblyPattern("-", "Facts"),
    AssemblyPattern("-", "Testbed"),
    AssemblyPattern("-", "Tests")
  ]

  const AssemblyFilters: string := Join(',', AssemblyFilterPatterns)

  /** The reportgenerator words for commit `commitId`. */
  function ReportArguments(commitId: string): seq<string>
  {
    [
      "reportgenerator",
      "-assemblyFilters:" + AssemblyFilters,
      "-reports:" + ArtifactPaths.TestResultsCoverageGlob,
      "-targetdir:" + ArtifactPaths.TestCoverage,
      "-tag:" + commitId,
      "-reporttypes:Html",
      "-title:\"__TITLE__\""
    ]
  }

  /** `RunAsync("dotnet", string.Join(' ', arguments))`. */
  function ReportInvocation(commitId: string): (inv: Invocation)
    ensures inv.program == "dotnet"
  {
    Invocation("dotnet", Join(' ', ReportArguments(commitId)))
  }

  /** `Execute`: reads the commit id from git, then runs the report generator once. */
  function Execute(exitCode: Invocation -> int, output: Invocation -> Captured): (t: Trace)
    ensures 1 <= |t.invocations| <= 2 && t.invocations[0] == RevParseHead
  {
    match GetCommitId(exitCode, output)
    case Failure(e) => Trace([RevParseHead], Fail(e))
    case Success(commitId) =>
      var report := ReportInvocation(commitId);
      Trace([RevParseHead, report], Process.Run(report, exitCode))
  }

  /** The five patterns, in order. */
  lemma FilterPatternsExact()
    ensures AssemblyFilterPatterns == [
      "+__PROJECT__.**", "-__PROJECT__.**Dev", "-__PROJECT__.**Facts",
      "-__PROJECT__.**Testbed", "-__PROJECT__.**Tests"]
  {
    assert AssemblyPattern("+", "") == "+__PROJECT__.**";
    assert AssemblyPattern("-", "Dev") == "-__PROJECT__.**Dev";
    assert AssemblyPattern("-", "Facts") == "-__PROJECT__.**Facts";
    assert AssemblyPattern("-", "Testbed") == "-__PROJECT__.**Testbed";
    assert AssemblyPattern("-", "Tests") == "-__PROJECT__.**Tests";
  }

  /**
   * Exactly one include pattern, and it comes first; the filter list holds no space, and
   * cutting it at commas gives the five patterns back.
   */
  lemma FiltersShape()
    ensures |AssemblyFilterPatterns| == 5
    ensures AssemblyFilterPatterns[0][0] == '+'
    ensures forall i | 1 <= i < |AssemblyFilterPatterns| :: AssemblyFilterPatterns[i][0] == '-'
    ensures ' ' !in AssemblyFilters
    ensures Split(',', AssemblyFilters) == AssemblyFilterPatterns
  {
    FilterPatternsExact();
    var patterns := AssemblyFilterPatterns;
    forall i | 0 <= i < |patterns| ensures ' ' !in patterns[i] && ',' !in patterns[i] {
      var p := patterns[i];
      assert forall k | 0 <= k < |p| :: p[k] != ' ' && p[k] != ',';
    }
    JoinAvoids(',', patterns, ' ');
    SplitJoin(',', patterns);
  }

  /** The seven words in order, with the report and target directories written out. */
  lemma ReportArgumentsExact(commitId: string)
    ensures var a := ReportArguments(commitId);
      && |a| == 7
      && a[0] == "reportgenerator"
      && a[1] == "-assemblyFilters:" + AssemblyFilters
      && a[2] == "-reports:" + "artifacts/tests/results/*/*/coverage.cobertura.xml"
      && a[3] == "-targetdir:" + "artifacts/tests/coverage"
      && a[4] == "-tag:" + commitId
      && a[5] == "-reporttypes:Html"
      && a[6] == "-title:\"__TITLE__\""
  {
    ArtifactPaths.TestPathsExact();
  }

  /** Every word but the tag is free of spaces. */
  lemma FixedWordsWithoutSpace(commitId: string)
    ensures forall i | 0 <= i < 7 && i != 4 :: ' ' !in ReportArguments(commitId)[i]
  {
    var a := ReportArguments(commitId);
    FiltersShape();
    ArtifactPaths.TestPathsWithoutSpace();
    assert ' ' !in "-assemblyFilters:" && ' ' !in "-reports:" && ' ' !in "-targetdir:";
    assert ' ' !in a[0];
    assert ' ' !in a[5];
    assert ' ' !in a[6];
  }

  /**
   * Cutting the argument string at spaces gives back the seven words if and only if the commit
   * id has no space (a git object id never has).
   */
  lemma ReportArgumentsRecoverable(commitId: string)
    ensures Split(' ', ReportInvocation(commitId).arguments) == ReportArguments(commitId) <==> ' ' !in commitId
  {
    var a := ReportArguments(commitId);
    FixedWordsWithoutSpace(commitId);
    if ' ' !in commitId {
      assert ' ' !in a[4];
      SplitJoin(' ', a);
    } else {
      assert ' ' in a[4];
      assert Split(' ', ReportInvocation(commitId).arguments) != a;
    }
  }

  /**
   * When git fails nothing else runs and the target fails with git's exit code. Otherwise the
   * report generator runs under `dotnet`, tagged with git's standard output minus its line
   * feeds, and the target ends as that run does.
   */
  lemma ExecuteSpec(exitCode: Invocation -> int, output: Invocation -> Captured)
    ensures var t := Execute(exitCode, output);
      && t.invocations[0] == RevParseHead
      && (exitCode(RevParseHead) != 0 ==>
            t == Trace([RevParseHead], Fail(ExitCodeError(RevParseHead, exitCode(RevParseHead)))))
      && (exitCode(RevParseHead) == 0 ==>
            var commitId := StripNewlines(output(RevParseHead).standardOutput);
            && '\n' !in commitId
            && t.invocations == [RevParseHead, ReportInvocation(commitId)]
            && t.outcome == Process.Run(ReportInvocation(commitId), exitCode))
  {
    StripNewlinesSpec(output(RevParseHead).standardOutput);
  }
}
